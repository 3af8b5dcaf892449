/** The rolling summary (agent_context.py): a transcript of any length is fed to the model in fragments
    that fill what the token budget leaves beside the previous, model-chosen summary. Text is counted
    at two characters a token, rounded up, plus a constant per message. */
module ContextSummary {
  import opened Strings
  import opened Wrappers

  /** AgentConfig (settings.py), with the checks of its __post_init__. */
  datatype Config = Config(context: nat, trigger: nat, keep: nat, summary: nat, maxOutput: nat, maxCalls: nat)

  predicate Accepted(c: Config) {
    && c.context >= 1 && c.trigger >= 1 && c.keep >= 1 && c.summary >= 1 && c.maxOutput >= 1 && c.maxCalls >= 1
    && c.summary * 3 + 2000 < c.context
    && c.keep + c.summary < c.trigger
    && c.trigger + c.maxOutput + 2000 <= c.context
  }

  /** The token counter: characters it adds for the role of a user message, tokens it adds per message,
      and what it counts for the fixed system prompt. */
  datatype Counter = Counter(role: nat, extra: nat, instructions: nat)

  const BEFORE := "Previous summary:\n"
  const BETWEEN := "\n\nNext conversation fragment:\n"
  const RESERVE := 1000

  function Tokens(k: Counter, chars: nat): nat {
    (chars + k.role + 1) / 2 + k.extra
  }

  /** The tokens of a whole prompt. */
  function PromptTokens(k: Counter, previous: string, fragment: string): nat {
    k.instructions + Tokens(k, |BEFORE + previous + BETWEEN + fragment|)
  }

  function Available(c: Config, k: Counter, previous: string): int {
    c.context - c.summary - PromptTokens(k, previous, "") - RESERVE
  }

  /** A model's answer to a prompt. */
  datatype Response = Response(text: string, truncated: bool) | Failed

  /** Any model: previous summary, fragment and batch number. */
  type Model = (string, string, nat) -> Response

  datatype Outcome = Done(summary: string) | NoRoom | NoAnswer | Empty | Truncated | OverBudget

  /** The summary fits below the trigger together with the messages that are kept. */
  predicate Fits(c: Config, k: Counter, summary: string) {
    Tokens(k, |summary|) + c.keep < c.trigger
  }

  /** One completed batch. */
  datatype Batch = Batch(previous: string, fragment: string, summary: string)

  function Fragments(sent: seq<Batch>): string {
    if |sent| == 0 then "" else Fragments(sent[..|sent| - 1]) + sent[|sent| - 1].fragment
  }

  /** Each batch carries the summary of the one before it. */
  ghost predicate Chained(sent: seq<Batch>) {
    && (|sent| > 0 ==> sent[0].previous == "")
    && forall i :: 0 < i < |sent| ==> sent[i].previous == sent[i - 1].summary
  }

  /** The batch keeps to the budget, makes progress and leaves an acceptable summary. */
  ghost predicate BatchOk(c: Config, k: Counter, b: Batch) {
    && PromptTokens(k, b.previous, b.fragment) + c.summary + RESERVE <= c.context
    && |b.fragment| > 0 && b.summary != "" && Fits(c, k, b.summary)
  }

  /** The fragment takes all the room there is. */
  ghost predicate Full(c: Config, k: Counter, b: Batch) {
    && PromptTokens(k, b.previous, b.fragment) + c.summary + RESERVE == c.context
    && |b.fragment| == Available(c, k, b.previous) * 2
  }

  function LastSummary(sent: seq<Batch>): string {
    if |sent| == 0 then "" else sent[|sent| - 1].summary
  }

  /** The completed batches cover this much of the text, each within its budget and, as long as text
      is left, using all of it. */
  ghost predicate Covers(c: Config, k: Counter, text: string, start: nat, sent: seq<Batch>) {
    && start <= |text| && Fragments(sent) == text[..start] && Chained(sent)
    && (forall i :: 0 <= i < |sent| ==> BatchOk(c, k, sent[i]))
    && (forall i :: 0 <= i < |sent| && (i < |sent| - 1 || start < |text|) ==> Full(c, k, sent[i]))
  }

  /** The next fragment of the text, of at most this many tokens. */
  function Fragment(text: string, start: nat, available: nat): (f: string)
    requires start < |text| && available > 0
    ensures 0 < |f| && start + |f| <= |text| && text[..start] + f == text[..start + |f|]
  {
    var end := Min(start + available * 2, |text|);
    assert text[..start] + text[start..end] == text[..end];
    text[start..end]
  }

  lemma FragmentFits(c: Config, k: Counter, previous: string, text: string, start: nat)
    requires Available(c, k, previous) > 0 && start < |text|
    ensures var f := Fragment(text, start, Available(c, k, previous));
            && PromptTokens(k, previous, f) + c.summary + RESERVE <= c.context
            && (start + |f| < |text| ==>
                  PromptTokens(k, previous, f) + c.summary + RESERVE == c.context
                  && |f| == Available(c, k, previous) * 2)
  {
    var f := Fragment(text, start, Available(c, k, previous));
    assert |BEFORE + previous + BETWEEN + f| == |BEFORE + previous + BETWEEN + ""| + |f|;
  }

  lemma OneMoreBatch(c: Config, k: Counter, text: string, start: nat, sent: seq<Batch>, summary: string)
    requires Covers(c, k, text, start, sent) && start < |text| && Available(c, k, LastSummary(sent)) > 0
    requires summary != "" && Fits(c, k, summary)
    ensures var f := Fragment(text, start, Available(c, k, LastSummary(sent)));
            Covers(c, k, text, start + |f|, sent + [Batch(LastSummary(sent), f, summary)])
  {
    hide PromptTokens, Tokens, Fragment, Available;
    FragmentFits(c, k, LastSummary(sent), text, start);
    var f := Fragment(text, start, Available(c, k, LastSummary(sent)));
    var more := sent + [Batch(LastSummary(sent), f, summary)];
    assert more[..|sent|] == sent;
  }

  /** One call of the model, and the checks on its answer. */
  function Compact(c: Config, k: Counter, response: Response): Outcome {
    match response
    case Failed => NoAnswer
    case Response(text, truncated) =>
      var summary := Stripped(text, IsSpace);
      if summary == "" then Empty
      else if truncated then Truncated
      else if Tokens(k, |summary|) + c.keep >= c.trigger then OverBudget
      else Done(summary)
  }

  /** The summary is the whole of a complete answer, without the white space around it. */
  ghost predicate Summarizes(response: Response, summary: string) {
    response.Response? && !response.truncated && summary != "" && Core(response.text, IsSpace, summary)
  }

  /** What the counter charges for a message of this many characters: two to a token, rounded up. */
  ghost predicate Charges(k: Counter, chars: nat, tokens: int) {
    2 * (tokens - k.extra) - 1 <= chars + k.role <= 2 * (tokens - k.extra)
  }

  /** An answer that stops the summary, and how. */
  ghost predicate Stops(c: Config, k: Counter, response: Response, r: Outcome) {
    match r
    case NoAnswer => response.Failed?
    case Empty => response.Response? && forall i :: 0 <= i < |response.text| ==> IsSpace(response.text[i])
    case Truncated =>
      response.Response? && response.truncated && exists i :: 0 <= i < |response.text| && !IsSpace(response.text[i])
    case OverBudget => exists summary, tokens ::
      Summarizes(response, summary) && Charges(k, |summary|, tokens) && tokens + c.keep >= c.trigger
    case _ => false
  }

  lemma CompactIs(c: Config, k: Counter, response: Response)
    ensures var r := Compact(c, k, response);
            && (r.Done? ==> Summarizes(response, r.summary) && Fits(c, k, r.summary))
            && (!r.Done? ==> Stops(c, k, response, r))
  {
    hide Tokens, Charges, Core, Stripped, IsSpace;
    if response.Response? {
      var summary := Stripped(response.text, IsSpace);
      StrippedIsCore(response.text, IsSpace);
      BlankOrNot(response.text, summary);
      TokensCharge(k, |summary|);
    }
  }

  lemma BlankOrNot(text: string, summary: string)
    requires Core(text, IsSpace, summary)
    ensures summary == "" ==> forall i :: 0 <= i < |text| ==> IsSpace(text[i])
    ensures summary != "" ==> exists i :: 0 <= i < |text| && !IsSpace(text[i])
  {
    hide IsSpace;
    var i, j :| CoreAt(text, IsSpace, i, j) && text[i..j] == summary;
    assert i < j ==> !IsSpace(text[i]);
  }

  lemma TokensCharge(k: Counter, chars: nat)
    ensures Charges(k, chars, Tokens(k, chars))
  {
  }

  /** The prompt, the summary it asks for and a fixed reserve fit the window together. */
  ghost predicate WithinWindow(c: Config, k: Counter, previous: string, fragment: string) {
    CharsFit(c, k, |"Previous summary:\n"| + |previous| + |"\n\nNext conversation fragment:\n"| + |fragment|)
  }

  ghost predicate CharsFit(c: Config, k: Counter, chars: nat) {
    exists tokens :: Charges(k, chars, tokens) && k.instructions + tokens + c.summary + 1000 <= c.context
  }

  lemma WindowIs(c: Config, k: Counter, previous: string, fragment: string)
    ensures WithinWindow(c, k, previous, fragment)
            <==> PromptTokens(k, previous, fragment) + c.summary + RESERVE <= c.context
  {
    var chars := |BEFORE + previous + BETWEEN + fragment|;
    TokensCharge(k, chars);
    assert |BEFORE| == |"Previous summary:\n"| && |BETWEEN| == |"\n\nNext conversation fragment:\n"|;
    assert chars == |BEFORE| + |previous| + |BETWEEN| + |fragment|;
    forall tokens | Charges(k, chars, tokens) ensures tokens == Tokens(k, chars) {
    }
  }

  /** Without room no prompt takes two more characters, that is one more token. */
  lemma NoRoomIs(c: Config, k: Counter, previous: string)
    ensures Available(c, k, previous) <= 0 <==> !WithinWindow(c, k, previous, "..")
  {
    WindowIs(c, k, previous, "..");
    assert |BEFORE + previous + BETWEEN + ".."| == |BEFORE + previous + BETWEEN + ""| + 2;
  }

  /** Every completed batch passed on the model's whole answer. */
  ghost predicate Faithful(model: Model, sent: seq<Batch>) {
    forall i :: 0 <= i < |sent| ==> Summarizes(model(sent[i].previous, sent[i].fragment, i), sent[i].summary)
  }

  /** Summarize the text in batches; `sent` lists the completed ones and `asked` the fragment whose
      answer ended the summary, if one did. Whatever the model answers, they cover a prefix of the
      text without gap or overlap, and all of it when the method succeeds. */
  method CreateSummary(c: Config, k: Counter, text: string, model: Model)
    returns (r: Outcome, ghost sent: seq<Batch>, ghost asked: string)
    ensures Covers(c, k, text, |Fragments(sent)|, sent) && Faithful(model, sent)
    ensures r.Done? ==> Fragments(sent) == text && r.summary == LastSummary(sent)
    ensures !r.Done? ==> Fragments(sent) + asked <= text && Fragments(sent) != text
    ensures r.NoRoom? ==> !WithinWindow(c, k, LastSummary(sent), "..")
    ensures forall i :: 0 <= i < |sent| ==> WithinWindow(c, k, sent[i].previous, sent[i].fragment)
    ensures !r.Done? && !r.NoRoom? ==>
              && asked != "" && WithinWindow(c, k, LastSummary(sent), asked)
              && Stops(c, k, model(LastSummary(sent), asked, |sent|), r)
    ensures r == Summarize(c, k, text, 0, "", 0, model)
  {
    hide Covers, Available, Compact, Fragment, Summarizes, Stops, PromptTokens, Fits, Stripped, WithinWindow;
    var summary := "";
    var start, batches := 0, 0;
    sent, asked := [], "";
    NothingSent(c, k, text);
    while start < |text|
      invariant 0 <= start <= |text| && batches == |sent| && start == |Fragments(sent)|
      invariant Covers(c, k, text, start, sent) && summary == LastSummary(sent) && Faithful(model, sent) && asked == ""
      invariant forall i :: 0 <= i < |sent| ==> WithinWindow(c, k, sent[i].previous, sent[i].fragment)
      invariant Summarize(c, k, text, 0, "", 0, model) == Summarize(c, k, text, start, summary, batches, model)
    {
      SoFar(c, k, text, start, sent);
      var available := Available(c, k, summary);
      NoRoomIs(c, k, summary);
      if available <= 0 {
        return NoRoom, sent, asked;
      }
      var fragment := Fragment(text, start, available);
      var response := model(summary, fragment, batches);
      var outcome := Compact(c, k, response);
      CompactIs(c, k, response);
      CompactStops(c, k, response);
      FragmentFits(c, k, summary, text, start);
      WindowIs(c, k, summary, fragment);
      if !outcome.Done? {
        return outcome, sent, fragment;
      }
      Accepts(c, k, response);
      OneMoreBatch(c, k, text, start, sent, outcome.summary);
      sent := sent + [Batch(summary, fragment, outcome.summary)];
      SentLength(c, k, text, start + |fragment|, sent);
      summary := outcome.summary;
      start := start + |fragment|;
      batches := batches + 1;
    }
    Everything(c, k, text, sent);
    return Done(summary), sent, asked;
  }

  lemma SoFar(c: Config, k: Counter, text: string, start: nat, sent: seq<Batch>)
    requires Covers(c, k, text, start, sent) && start < |text|
    ensures Fragments(sent) == text[..start] && Fragments(sent) < text
  {
  }

  lemma Everything(c: Config, k: Counter, text: string, sent: seq<Batch>)
    requires Covers(c, k, text, |text|, sent)
    ensures Fragments(sent) == text
  {
    assert text[..|text|] == text;
  }

  lemma SentLength(c: Config, k: Counter, text: string, start: nat, sent: seq<Batch>)
    requires Covers(c, k, text, start, sent)
    ensures |Fragments(sent)| == start && start <= |text|
  {
  }

  lemma NothingSent(c: Config, k: Counter, text: string)
    ensures Covers(c, k, text, 0, [])
  {
  }

  lemma Accepts(c: Config, k: Counter, response: Response)
    requires Compact(c, k, response).Done?
    ensures Compact(c, k, response).summary != "" && Fits(c, k, Compact(c, k, response).summary)
  {
  }

  /** What the loop computes from any point on. */
  function Summarize(c: Config, k: Counter, text: string, start: nat, summary: string, batches: nat,
                     model: Model): Outcome
    requires start <= |text|
    decreases |text| - start
  {
    if start == |text| then Done(summary)
    else if Available(c, k, summary) <= 0 then NoRoom
    else
      var fragment := Fragment(text, start, Available(c, k, summary));
      var outcome := Compact(c, k, model(summary, fragment, batches));
      if outcome.Done? then Summarize(c, k, text, start + |fragment|, outcome.summary, batches + 1, model) else outcome
  }

  // ---- No dead end ---------------------------------------------------------------------------

  /** The room that is left beside the longest acceptable summary. */
  function LeastRoom(c: Config, k: Counter): int {
    c.context + c.keep + 1 - c.trigger - c.summary - k.instructions - RESERVE - (|BEFORE| + |BETWEEN|) / 2
  }

  /** The length of the longest summary that fits. */
  function Longest(c: Config, k: Counter): int {
    (c.trigger - c.keep - 1 - k.extra) * 2 - k.role
  }

  lemma LongestFits(c: Config, k: Counter, summary: string)
    ensures Fits(c, k, summary) <==> |summary| <= Longest(c, k)
  {
  }

  lemma RoomBeside(c: Config, k: Counter, summary: string)
    requires Fits(c, k, summary)
    ensures Available(c, k, summary) >= LeastRoom(c, k)
    ensures |summary| == Longest(c, k) ==> Available(c, k, summary) == LeastRoom(c, k)
  {
    assert |BEFORE + summary + BETWEEN + ""| == |BEFORE| + |summary| + |BETWEEN|;
  }

  /** Room for every batch there can be: if no summary is acceptable at all, there is only the first. */
  predicate HasRoom(c: Config, k: Counter) {
    if Fits(c, k, "") then LeastRoom(c, k) > 0 else Available(c, k, "") > 0
  }

  lemma CompactStops(c: Config, k: Counter, response: Response)
    ensures Compact(c, k, response) != NoRoom
  {
  }

  lemma {:induction false} GoesOn(c: Config, k: Counter, text: string, start: nat, summary: string, batches: nat,
                                  model: Model)
    requires start <= |text| && Fits(c, k, summary) && LeastRoom(c, k) > 0
    ensures Summarize(c, k, text, start, summary, batches, model) != NoRoom
    decreases |text| - start
  {
    hide Compact, Available, Fits, LeastRoom, Fragment, Stripped;
    if start < |text| {
      RoomBeside(c, k, summary);
      var fragment := Fragment(text, start, Available(c, k, summary));
      var outcome := Compact(c, k, model(summary, fragment, batches));
      CompactStops(c, k, model(summary, fragment, batches));
      if outcome.Done? {
        Accepts(c, k, model(summary, fragment, batches));
        GoesOn(c, k, text, start + |fragment|, outcome.summary, batches + 1, model);
      }
    }
  }

  /** With such room no transcript and no model can get stuck. */
  lemma NeverStuck(c: Config, k: Counter, text: string, model: Model)
    requires HasRoom(c, k)
    ensures Summarize(c, k, text, 0, "", 0, model) != NoRoom
  {
    if Fits(c, k, "") {
      GoesOn(c, k, text, 0, "", 0, model);
    } else if |text| > 0 {
      var response := model("", Fragment(text, 0, Available(c, k, "")), 0);
      if Compact(c, k, response).Done? {
        Accepts(c, k, response);
        LongestFits(c, k, "");
        LongestFits(c, k, Compact(c, k, response).summary);
        assert false;
      }
    }
  }

  /** Without it some transcript and some model do: one that answers with the longest summary, or one
      that is never asked. */
  lemma GetsStuck(c: Config, k: Counter) returns (text: string, model: Model)
    requires !HasRoom(c, k)
    ensures Summarize(c, k, text, 0, "", 0, model) == NoRoom
  {
    if Available(c, k, "") <= 0 {
      text, model := "x", (previous, fragment, n) => Failed;
    } else {
      text, model := StuckWithLongest(c, k);
    }
  }

  lemma StuckWithLongest(c: Config, k: Counter) returns (text: string, model: Model)
    requires Fits(c, k, "") && LeastRoom(c, k) <= 0 && Available(c, k, "") > 0
    ensures Summarize(c, k, text, 0, "", 0, model) == NoRoom
  {
    LongestFits(c, k, "");
    var longest: string := seq(Longest(c, k), _ => 'x');
    LongestFits(c, k, longest);
    RoomBeside(c, k, longest);
    model := (previous, fragment, n) => Response(longest, false);
    assert longest != "" by {
      assert longest == "" ==> |longest| == 0;
    }
    text := seq(Available(c, k, "") * 2 + 1, _ => 'x');
    var fragment := Fragment(text, 0, Available(c, k, ""));
    NothingToStrip(longest, IsSpace);
    assert Compact(c, k, model("", fragment, 0)) == Done(longest);
    assert Summarize(c, k, text, |fragment|, longest, 1, model) == NoRoom;
  }

  /** Every accepted configuration whose output reserve and kept messages outweigh the summary budget
      and the system prompt is free of dead ends, whatever the transcript and the model. */
  lemma SaneConfigurations(c: Config, k: Counter, text: string, model: Model)
    requires Accepted(c) && Fits(c, k, "") && c.maxOutput + c.keep + 976 >= c.summary + k.instructions
    ensures Summarize(c, k, text, 0, "", 0, model) != NoRoom
  {
    NeverStuck(c, k, text, model);
  }

  /** Acceptance alone is not enough: this configuration passes every check and runs into a dead end. */
  lemma AcceptedDeadEnd(k: Counter) returns (c: Config, text: string, model: Model)
    requires Tokens(k, 0) < 9999
    ensures Accepted(c) && Summarize(c, k, text, 0, "", 0, model) == NoRoom
  {
    c := Config(12001, 10000, 1, 1000, 1, 12);
    text, model := GetsStuck(c, k);
  }

  /** A batch that is not the last takes at least the least room. */
  lemma UsesRoom(c: Config, k: Counter, text: string, start: nat, sent: seq<Batch>, i: nat)
    requires Covers(c, k, text, start, sent) && Fits(c, k, "") && i < |sent| - 1
    ensures |sent[i].fragment| >= LeastRoom(c, k) * 2
  {
    hide Available, LeastRoom, PromptTokens, Fits, Fragments;
    assert Full(c, k, sent[i]);
    if i > 0 {
      assert BatchOk(c, k, sent[i - 1]);
    }
    RoomBeside(c, k, sent[i].previous);
  }

  lemma {:induction false} Consumed(sent: seq<Batch>, n: nat, room: int)
    requires n <= |sent| && forall i :: 0 <= i < n ==> |sent[i].fragment| >= room * 2
    ensures n * room * 2 <= |Fragments(sent[..n])|
  {
    if n == 0 {
    } else {
      Consumed(sent, n - 1, room);
      assert sent[..n][..n - 1] == sent[..n - 1];
      assert n * room * 2 == (n - 1) * room * 2 + room * 2;
    }
  }

  /** Each batch but the last consumes at least the least room, which bounds their number. */
  lemma BatchBound(c: Config, k: Counter, text: string, start: nat, sent: seq<Batch>)
    requires Covers(c, k, text, start, sent) && Fits(c, k, "") && |sent| > 0
    ensures (|sent| - 1) * LeastRoom(c, k) * 2 < |text|
  {
    var n := |sent| - 1;
    forall i | 0 <= i < n ensures |sent[i].fragment| >= LeastRoom(c, k) * 2 {
      UsesRoom(c, k, text, start, sent, i);
    }
    Consumed(sent, n, LeastRoom(c, k));
    assert BatchOk(c, k, sent[n]);
    hide LeastRoom;
  }

  // ---- The guardrail before each model call ----------------------------------------------------

  /** What the counter says of messages with these lengths. */
  function TotalTokens(k: Counter, messages: seq<nat>): nat {
    if |messages| == 0 then 0 else TotalTokens(k, messages[..|messages| - 1]) + Tokens(k, messages[|messages| - 1])
  }

  /** Messages, system prompt included, that leave room for the output and the tool schemas. */
  predicate Admits(c: Config, k: Counter, messages: seq<nat>) {
    TotalTokens(k, messages) + c.maxOutput + RESERVE <= c.context
  }

  method CheckCall(c: Config, k: Counter, system: seq<nat>, messages: seq<nat>) returns (ok: bool)
    ensures ok <==> Admits(c, k, system + messages)
    ensures ok <==> TotalTokens(k, system) + TotalTokens(k, messages) + c.maxOutput + 1000 <= c.context
  {
    TotalConcat(k, system, messages);
    var all := system + messages;
    var tokens, i := 0, 0;
    while i < |all|
      invariant 0 <= i <= |all| && tokens == TotalTokens(k, all[..i])
    {
      assert all[..i + 1][..i] == all[..i];
      tokens := tokens + Tokens(k, all[i]);
      i := i + 1;
    }
    assert all[..i] == all;
    ok := !(tokens + c.maxOutput + RESERVE > c.context);
  }

  lemma {:induction false} TotalConcat(k: Counter, a: seq<nat>, b: seq<nat>)
    ensures TotalTokens(k, a + b) == TotalTokens(k, a) + TotalTokens(k, b)
  {
    if |b| == 0 {
      assert a + b == a;
    } else {
      TotalConcat(k, a, b[..|b| - 1]);
      assert (a + b)[..|a + b| - 1] == a + b[..|b| - 1];
    }
  }

  /** An accepted summary never blocks the chat: beside the kept messages, under a preamble, and with
      a system prompt of at most 1000 tokens in all, the next call is admitted. */
  lemma CompactedIsAdmitted(c: Config, k: Counter, system: nat, preamble: nat, summary: string, kept: seq<nat>)
    requires Accepted(c) && Fits(c, k, summary) && TotalTokens(k, kept) <= c.keep
    requires Tokens(k, system) + (preamble + 1) / 2 <= 1000
    ensures Admits(c, k, [system, preamble + |summary|] + kept)
  {
    TotalConcat(k, [system, preamble + |summary|], kept);
    assert [system, preamble + |summary|][..1] == [system] && [system][..0] == [];
    assert TotalTokens(k, [system]) == Tokens(k, system);
  }
}
