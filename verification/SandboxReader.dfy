/** Bounded reading of a chat's files (sandbox_tools.py): logical lines through a buffer of fixed
    size, pages of lines, and a capped traversal of directories. */
module SandboxReader {
  import opened Wrappers
  import S = SandboxFiles
  import opened Strings

  type Bytes = S.Bytes

  const MAX_OUTPUT_CHARS := 6000
  const MAX_READ_BYTES: nat := 256 * 1024
  const NEWLINE: S.Byte := 10
  const LONG := " [Long line truncated]"

  /** decode("utf-8", errors="replace"). */
  type Decoder = Bytes -> string

  // ---- Plain lines -----------------------------------------------------------------------------

  /** The length of the first line, with its newline if it has one. */
  function LineLength(data: Bytes): (n: nat)
    ensures n <= |data| && (data != [] ==> n > 0)
  {
    if data == [] then 0
    else if data[0] == NEWLINE then 1
    else 1 + LineLength(data[1..])
  }

  /** Newline-delimited lines; only the last one may lack its newline. */
  function Lines(data: Bytes): seq<Bytes>
    decreases |data|
  {
    if data == [] then [] else [data[..LineLength(data)]] + Lines(data[LineLength(data)..])
  }

  function Joined(lines: seq<Bytes>): Bytes {
    if |lines| == 0 then [] else lines[0] + Joined(lines[1..])
  }

  /** The shape of one line: nonempty, a newline at its end and nowhere else. */
  ghost predicate IsLine(line: Bytes) {
    line != [] && NEWLINE !in line[..|line| - 1]
  }

  ghost predicate Ended(line: Bytes) {
    line != [] && line[|line| - 1] == NEWLINE
  }

  /** Nothing is lost, and every line is one line; all but the last end with a newline. */
  lemma {:induction false} LinesPartition(data: Bytes)
    ensures Joined(Lines(data)) == data
    ensures forall i :: 0 <= i < |Lines(data)| ==> IsLine(Lines(data)[i])
    ensures forall i :: 0 <= i < |Lines(data)| - 1 ==> Ended(Lines(data)[i])
    decreases |data|
  {
    if data == [] {
    } else {
      var n := LineLength(data);
      FirstLine(data);
      LinesPartition(data[n..]);
      assert data == data[..n] + data[n..];
      assert IsLine(data[..n]) && (n < |data| ==> Ended(data[..n]));
      hide IsLine, Ended, LineLength;
    }
  }

  lemma {:induction false} FirstLine(data: Bytes)
    requires data != []
    ensures NEWLINE !in data[..LineLength(data) - 1]
    ensures LineLength(data) < |data| ==> data[LineLength(data) - 1] == NEWLINE
  {
    if data[0] != NEWLINE && |data| > 1 {
      FirstLine(data[1..]);
      var n := LineLength(data[1..]);
      assert data[..n] == [data[0]] + data[1..][..n - 1];
    }
  }

  // ---- Buffered lines ----------------------------------------------------------------------------

  predicate EndsLines(c: char) {
    c == '\r' || c == '\n'
  }

  /** The part of a line that one buffer holds. */
  function Head(line: Bytes): Bytes {
    if |line| <= MAX_READ_BYTES then line else line[..MAX_READ_BYTES]
  }

  /** Does the buffer end before the newline of its line? */
  predicate Cut(head: Bytes) {
    |head| == MAX_READ_BYTES && head[|head| - 1] != NEWLINE
  }

  /** What is shown of a line. */
  function Shown(decode: Decoder, line: Bytes): string {
    TrimEnd(decode(Head(line)), EndsLines) + if Cut(Head(line)) then LONG else ""
  }

  /** `t` is `s` without the carriage returns and newlines at its end. */
  ghost predicate Unended(s: string, t: string) {
    && t <= s && (forall i :: |t| <= i < |s| ==> s[i] == '\r' || s[i] == '\n')
    && (t != "" ==> t[|t| - 1] != '\r' && t[|t| - 1] != '\n')
  }

  /** A line is shown whole and without its line end, unless its first 262144 bytes do not end it: then
      they are shown, with a note. */
  lemma ShownIs(decode: Decoder, line: Bytes) returns (text: string)
    ensures Unended(decode(if |line| <= 262144 then line else line[..262144]), text)
    ensures Shown(decode, line)
            == text + if |line| >= 262144 && line[262143] != 10 then " [Long line truncated]" else ""
  {
    text := TrimEnd(decode(Head(line)), EndsLines);
    TrimEndIs(decode(Head(line)), EndsLines);
  }

  predicate Binary(line: Bytes) {
    0 in Head(line)
  }

  class TextStream {
    const data: Bytes
    var position: nat

    constructor (data: Bytes)
      ensures Valid() && this.data == data && Ahead() == Lines(data)
    {
      this.data, position := data, 0;
      new;
      assert data[0..] == data;
    }

    ghost predicate Valid()
      reads this
    {
      position <= |data|
    }

    /** readline(limit): up to and including the next newline, at most `limit` bytes, nothing at the end. */
    method ReadLine(limit: nat) returns (raw: Bytes)
      requires Valid() && limit > 0
      modifies this
      ensures Valid() && raw == old(data[position..])[..Min(LineLength(data[old(position)..]), limit)]
      ensures position == old(position) + |raw|
    {
      var start := position;
      while position < |data| && position - start < limit && (position == start || data[position - 1] != NEWLINE)
        invariant start <= position <= |data| && position - start <= limit
        invariant position == start || data[position - 1] != NEWLINE ==>
                    LineLength(data[start..]) == position - start + LineLength(data[position..])
        invariant position > start && data[position - 1] == NEWLINE ==> LineLength(data[start..]) == position - start
      {
        assert data[position..][1..] == data[position + 1..];
        position := position + 1;
      }
      raw := data[start..position];
      assert position - start == limit || LineLength(data[start..]) == position - start;
      if position - start == limit && (position == start || data[position - 1] != NEWLINE) {
        assert LineLength(data[start..]) >= limit;
      }
    }

    /** The lines that have not been read. */
    ghost function Ahead(): seq<Bytes>
      requires Valid()
      reads this
    {
      Lines(data[position..])
    }

    /** One step of the line iterator: exactly the next logical line, nothing at the end, or an error
        when its first buffer holds a null byte. A line that outgrows the buffer is skipped to its newline. */
    method NextLine(decode: Decoder) returns (r: Result<Option<string>>)
      requires Valid()
      modifies this
      ensures Valid()
      ensures var ahead := old(Ahead());
              if ahead == [] then r == Ok(None) && Ahead() == []
              else if Binary(ahead[0]) then r == Err(Invalid)
              else r == Ok(Some(Shown(decode, ahead[0]))) && Ahead() == ahead[1..]
    {
      ghost var start := position;
      ghost var rest := data[start..];
      var raw := ReadLine(MAX_READ_BYTES);
      if raw == [] {
        return Ok(None);
      }
      ghost var line := rest[..LineLength(rest)];
      assert Lines(rest) == [line] + Lines(rest[LineLength(rest)..]);
      assert raw == Head(line);
      if 0 in raw {
        return Err(Invalid);
      }
      var truncated := raw[|raw| - 1] != NEWLINE && |raw| == MAX_READ_BYTES;
      hide Lines;
      if truncated {
        SkipTail(start);
      } else if raw[|raw| - 1] == NEWLINE {
        EndsLine(rest, |raw|);
      }
      assert position == start + LineLength(rest);
      assert data[position..] == rest[LineLength(rest)..];
      return Ok(Some(TrimEnd(decode(raw), EndsLines) + if truncated then LONG else ""));
    }

    /** Read on to the end of a line that was cut. */
    method SkipTail(ghost start: nat)
      requires Valid() && start + MAX_READ_BYTES == position
      requires MAX_READ_BYTES <= LineLength(data[start..]) && data[position - 1] != NEWLINE
      modifies this
      ensures Valid() && position == start + LineLength(data[start..])
    {
      ghost var rest := data[start..];
      LineGoesOn(rest, MAX_READ_BYTES);
      assert rest[MAX_READ_BYTES..] == data[position..];
      while true
        invariant start <= position <= |data| && LineLength(rest) == position - start + LineLength(data[position..])
        decreases |data| - position
      {
        ghost var before := data[position..];
        var tail := ReadLine(MAX_READ_BYTES);
        if tail == [] {
          return;
        }
        if tail[|tail| - 1] == NEWLINE {
          EndsLine(before, |tail|);
          return;
        }
        LineGoesOn(before, |tail|);
        assert before[|tail|..] == data[position..];
      }
    }

    /** All lines from here on. */
    method AllLines(decode: Decoder) returns (r: Result<seq<string>>)
      requires Valid()
      modifies this
      ensures Valid()
      ensures AnyBinary(old(Ahead())) ==> r == Err(Invalid)
      ensures !AnyBinary(old(Ahead())) ==> r == Ok(ShownAll(decode, old(Ahead()))) && Ahead() == []
    {
      hide Shown, Binary, Ahead, ShownAll, AnyBinary;
      ghost var all := Ahead();
      var shown: seq<string> := [];
      NothingShown(decode, all);
      while true
        invariant Valid() && |shown| <= |all| && Ahead() == all[|shown|..]
        invariant !AnyBinary(all[..|shown|]) && shown == ShownAll(decode, all[..|shown|])
        decreases |all| - |shown|
      {
        ghost var i := |shown|;
        var line := NextLine(decode);
        if line.Err? {
          BinaryLine(all, i);
          return Err(line.error);
        }
        if line.value.None? {
          assert all[..i] == all;
          return Ok(shown);
        }
        PassLine(all, i);
        ShownLast(decode, all, i);
        shown := shown + [line.value.value];
      }
    }
  }

  ghost predicate AnyBinary(lines: seq<Bytes>) {
    exists i :: 0 <= i < |lines| && Binary(lines[i])
  }

  /** A file is taken for binary by a null byte among the first 262144 bytes of a line. */
  lemma AnyBinaryIs(lines: seq<Bytes>)
    ensures AnyBinary(lines)
            <==> exists i, k: int :: 0 <= i < |lines| && 0 <= k < |lines[i]| && k < 262144 && lines[i][k] == 0
  {
    if AnyBinary(lines) {
      var i :| 0 <= i < |lines| && Binary(lines[i]);
      var k :| 0 <= k < |Head(lines[i])| && Head(lines[i])[k] == 0;
      assert lines[i][k] == 0;
    }
    if i: int, k: int :| 0 <= i < |lines| && 0 <= k < |lines[i]| && k < 262144 && lines[i][k] == 0 {
      assert Head(lines[i])[k] == 0;
      assert Binary(lines[i]);
    }
  }

  /** One line further. */
  lemma PassLine(all: seq<Bytes>, index: nat)
    requires index < |all| && !AnyBinary(all[..index]) && !Binary(all[index])
    ensures all[index..][1..] == all[index + 1..] && !AnyBinary(all[..index + 1])
  {
    assert forall i :: 0 <= i < index ==> all[..index + 1][i] == all[..index][i];
  }

  lemma NothingShown(decode: Decoder, lines: seq<Bytes>)
    ensures ShownAll(decode, lines[..0]) == [] && lines[0..] == lines && !AnyBinary(lines[..0])
  {
  }

  lemma BinaryLine(all: seq<Bytes>, i: nat)
    requires i < |all| && Binary(all[i])
    ensures AnyBinary(all)
  {
  }

  function ShownAll(decode: Decoder, lines: seq<Bytes>): (r: seq<string>)
    ensures |r| == |lines|
    ensures forall i :: 0 <= i < |r| ==> r[i] == Shown(decode, lines[i])
  {
    if |lines| == 0 then [] else ShownAll(decode, lines[..|lines| - 1]) + [Shown(decode, lines[|lines| - 1])]
  }

  lemma ShownLast(decode: Decoder, lines: seq<Bytes>, i: nat)
    requires i < |lines|
    ensures ShownAll(decode, lines[..i + 1]) == ShownAll(decode, lines[..i]) + [Shown(decode, lines[i])]
  {
    assert lines[..i + 1][..i] == lines[..i];
  }

  /** A line goes on after any of its bytes that is not a newline. */
  lemma {:induction false} LineGoesOn(data: Bytes, k: nat)
    requires 0 < k <= LineLength(data) && data[k - 1] != NEWLINE
    ensures LineLength(data) == k + LineLength(data[k..])
  {
    if k > 1 {
      LineGoesOn(data[1..], k - 1);
      assert data[1..][k - 1..] == data[k..];
    }
  }

  lemma {:induction false} EndsLine(data: Bytes, k: nat)
    requires 0 < k <= LineLength(data) && data[k - 1] == NEWLINE
    ensures LineLength(data) == k
  {
    if k > 1 {
      EndsLine(data[1..], k - 1);
    }
  }

  // ---- Pages of lines ----------------------------------------------------------------------------

  function Numbered(index: nat, text: string): string {
    S.Decimal(index + 1) + ": " + text
  }

  /** A row: the number of its line, counted from one, and the line. */
  ghost predicate IsRow(row: string, number: nat, text: string) {
    exists numeral :: S.IsNumeral(numeral, number) && row == numeral + ": " + text
  }

  lemma NumberedIs(index: nat, text: string)
    ensures IsRow(Numbered(index, text), index + 1, text)
  {
    S.DecimalIs(index + 1);
  }

  lemma RowsAre(texts: seq<string>, from: nat, to: nat)
    requires from <= to <= |texts|
    ensures |Rows(texts, from, to)| == to - from
    ensures forall i :: 0 <= i < to - from ==> IsRow(Rows(texts, from, to)[i], from + i + 1, texts[from + i])
  {
    hide Numbered, IsRow;
    forall i | 0 <= i < to - from ensures IsRow(Rows(texts, from, to)[i], from + i + 1, texts[from + i]) {
      NumberedIs(from + i, texts[from + i]);
    }
  }

  /** The numbered lines from one index to another. */
  function Rows(texts: seq<string>, from: nat, to: nat): (r: seq<string>)
    requires from <= to <= |texts|
    ensures |r| == to - from && forall i :: 0 <= i < |r| ==> r[i] == Numbered(from + i, texts[from + i])
  {
    if from == to then [] else Rows(texts, from, to - 1) + [Numbered(to - 1, texts[to - 1])]
  }

  /** Where a page ends that has `count` lines of this size so far: at the limit, at the size bound or
      at the end of the file, but after at least one more line if there is one. */
  function PageEnd(texts: seq<string>, from: nat, limit: nat, count: nat, size: nat): (end: nat)
    requires from + count <= |texts|
    ensures from + count <= end <= |texts| && (from + count < |texts| ==> end > from + count)
    decreases |texts| - from - count
  {
    if from + count == |texts| then |texts|
    else
      var grown := size + |Numbered(from + count, texts[from + count])|;
      if count + 1 >= limit || grown >= MAX_OUTPUT_CHARS then from + count + 1
      else PageEnd(texts, from, limit, count + 1, grown)
  }

  /** Where the page that starts at an offset ends, even past the last line. */
  function PageStop(texts: seq<string>, offset: nat, limit: nat): (end: nat)
    ensures end <= |texts| && (offset < |texts| ==> end > offset)
  {
    if offset >= |texts| then |texts| else PageEnd(texts, offset, limit, 0, 0)
  }

  function Chars(rows: seq<string>): nat {
    if |rows| == 0 then 0 else Chars(rows[..|rows| - 1]) + |rows[|rows| - 1]|
  }

  lemma OneMoreRow(texts: seq<string>, from: nat, to: nat)
    requires from <= to < |texts|
    ensures Chars(Rows(texts, from, to + 1)) == Chars(Rows(texts, from, to)) + |Numbered(to, texts[to])|
  {
    hide Numbered;
    var rows, row := Rows(texts, from, to), Numbered(to, texts[to]);
    assert Rows(texts, from, to + 1) == rows + [row];
    assert (rows + [row])[..|rows|] == rows;
  }

  /** A page has at most `limit` lines and stays below 6000 characters until its last one; unless the
      file ends, it goes on to one of these bounds. */
  lemma {:induction false} PageEndIs(texts: seq<string>, from: nat, limit: nat, count: nat)
    requires from + count < |texts| && count < limit
    requires Chars(Rows(texts, from, from + count)) < 6000
    ensures var end := PageEnd(texts, from, limit, count, Chars(Rows(texts, from, from + count)));
            && from + count < end <= from + limit && Chars(Rows(texts, from, end - 1)) < 6000
            && (end < |texts| ==> end == from + limit || Chars(Rows(texts, from, end)) >= 6000)
    decreases |texts| - count
  {
    hide Numbered, Rows, Chars;
    OneMoreRow(texts, from, from + count);
    if !(count + 1 >= limit || Chars(Rows(texts, from, from + count + 1)) >= 6000) && from + count + 1 < |texts| {
      PageEndIs(texts, from, limit, count + 1);
    }
  }

  lemma PageStopIs(texts: seq<string>, offset: nat, limit: nat)
    requires offset < |texts| && limit > 0
    ensures var end := PageStop(texts, offset, limit);
            && offset < end <= offset + limit && Chars(Rows(texts, offset, end - 1)) < 6000
            && (end < |texts| ==> end == offset + limit || Chars(Rows(texts, offset, end)) >= 6000)
  {
    assert Rows(texts, offset, offset) == [];
    PageEndIs(texts, offset, limit, 0);
  }

  datatype Page = Page(lines: seq<string>, more: bool)

  /** The lines before `index` have been passed and those from the offset on collected. */
  ghost predicate Reading(texts: seq<string>, offset: nat, limit: nat, index: nat, lines: seq<string>, size: nat) {
    var stop := PageStop(texts, offset, limit);
    && index <= stop && (index < |texts| ==> index < stop)
    && (index <= offset ==> lines == [] && size == 0)
    && (index > offset ==>
           lines == Rows(texts, offset, index) && stop == PageEnd(texts, offset, limit, index - offset, size))
  }

  lemma ReadOn(texts: seq<string>, offset: nat, limit: nat, index: nat, lines: seq<string>, size: nat)
    requires Reading(texts, offset, limit, index, lines, size) && index < |texts|
    ensures index < offset ==> Reading(texts, offset, limit, index + 1, lines, size)
    ensures index >= offset ==>
              var row := Numbered(index, texts[index]);
              if |lines| + 1 >= limit || size + |row| >= MAX_OUTPUT_CHARS
              then PageStop(texts, offset, limit) == index + 1 && lines + [row] == Rows(texts, offset, index + 1)
              else Reading(texts, offset, limit, index + 1, lines + [row], size + |row|)
  {
    hide Numbered;
  }

  lemma ReadAll(texts: seq<string>, offset: nat, limit: nat, lines: seq<string>, size: nat)
    requires Reading(texts, offset, limit, |texts|, lines, size)
    ensures PageStop(texts, offset, limit) == |texts|
    ensures lines == if offset <= |texts| then Rows(texts, offset, |texts|) else []
  {
  }

  /** Read a page: the numbered lines up to its end, and whether another line exists. It fails only for
      bad arguments or a binary line that it has to pass. */
  method Read(data: Bytes, decode: Decoder, offset: int, limit: int) returns (r: Result<Page>)
    ensures offset < 0 || !(1 <= limit <= 200) ==> r == Err(Invalid)
    ensures offset >= 0 && 1 <= limit <= 200 ==>
              var texts := ShownAll(decode, Lines(data));
              var stop := PageStop(texts, offset, limit);
              if AnyBinary(Lines(data)[..stop]) then r == Err(Invalid)
              else r == Ok(Page(if offset <= stop then Rows(texts, offset, stop) else [], stop < |texts|))
    ensures r.Ok? ==>
              var texts, lines := ShownAll(decode, Lines(data)), r.value.lines;
              forall i :: 0 <= i < |lines| ==>
                            offset + i < |texts| && IsRow(lines[i], offset + i + 1, texts[offset + i])
  {
    hide IsRow, Shown, Binary, Lines, Numbered, Reading, PageStop, Rows, AnyBinary, ShownAll, TextStream.Ahead;
    if offset < 0 || !(1 <= limit <= 200) {
      return Err(Invalid);
    }
    var stream := new TextStream(data);
    ghost var all := Lines(data);
    ghost var texts := ShownAll(decode, all);
    var lines: seq<string> := [];
    var size: nat, index: nat := 0, 0;
    var done := false;
    StartReading(all, texts, offset, limit);
    while !done
      invariant fresh(stream) && stream.Valid() && index <= |all| && stream.Ahead() == all[index..]
      invariant !AnyBinary(all[..index])
      invariant !done ==> Reading(texts, offset, limit, index, lines, size)
      invariant done ==> index == PageStop(texts, offset, limit)
                         && lines == if offset <= index then Rows(texts, offset, index) else []
      decreases if done then 0 else 1, |all| - index
    {
      var line := stream.NextLine(decode);
      if line.Err? {
        BinaryAhead(all, texts, offset, limit, index, lines, size);
        return Err(line.error);
      }
      if line.value.None? {
        ReadAll(texts, offset, limit, lines, size);
        done := true;
      } else {
        PassLine(all, index);
        ReadOn(texts, offset, limit, index, lines, size);
        if index >= offset {
          var row := Numbered(index, line.value.value);
          lines := lines + [row];
          size := size + |row|;
          done := |lines| >= limit || size >= MAX_OUTPUT_CHARS;
        }
        index := index + 1;
      }
    }
    var more := stream.position < |stream.data|;
    MoreAhead(stream);
    if offset <= index {
      RowsAre(texts, offset, index);
    }
    return Ok(Page(lines, more));
  }

  lemma MoreAhead(stream: TextStream)
    requires stream.Valid()
    ensures stream.position < |stream.data| <==> stream.Ahead() != []
  {
  }

  lemma StartReading(all: seq<Bytes>, texts: seq<string>, offset: nat, limit: nat)
    ensures Reading(texts, offset, limit, 0, [], 0) && all[0..] == all && !AnyBinary(all[..0])
  {
  }

  lemma BinaryAhead(all: seq<Bytes>, texts: seq<string>, offset: nat, limit: nat, index: nat, lines: seq<string>,
                    size: nat)
    requires |all| == |texts| && index < |all| && Binary(all[index])
    requires Reading(texts, offset, limit, index, lines, size)
    ensures AnyBinary(all[..PageStop(texts, offset, limit)])
  {
    assert all[..PageStop(texts, offset, limit)][index] == all[index];
  }

  /** The rows that reading page after page returns, each page starting where the last one ended. */
  function Paged(texts: seq<string>, offset: nat, limit: nat): seq<string>
    decreases if offset < |texts| then |texts| - offset else 0
  {
    if offset >= |texts| then []
    else Rows(texts, offset, PageStop(texts, offset, limit)) + Paged(texts, PageStop(texts, offset, limit), limit)
  }

  /** Paging yields every line once, in order. */
  lemma {:induction false} PagesCover(texts: seq<string>, offset: nat, limit: nat)
    requires offset <= |texts|
    ensures Paged(texts, offset, limit) == Rows(texts, offset, |texts|)
    decreases |texts| - offset
  {
    if offset < |texts| {
      PagesCover(texts, PageStop(texts, offset, limit), limit);
    }
  }

  /** Read a file page after page, each from where the last one ended, until no marker says that more
      exists: the reader's own pages yield every line once, in order. */
  method ReadPages(data: Bytes, decode: Decoder, limit: int) returns (r: Result<seq<string>>, pages: nat)
    requires 1 <= limit <= 200
    ensures var texts := ShownAll(decode, Lines(data));
            && r == (if AnyBinary(Lines(data)) then Err(Invalid) else Ok(Rows(texts, 0, |texts|)))
            && (r.Ok? ==> 1 <= pages <= |texts| + 1)
            && (r.Ok? ==> |r.value| == |texts|
                          && forall i :: 0 <= i < |texts| ==> IsRow(r.value[i], i + 1, texts[i]))
  {
    hide IsRow, Shown, Binary, Lines, Numbered, PageStop, Rows, ShownAll, AnyBinary;
    ghost var all := Lines(data);
    ghost var texts := ShownAll(decode, all);
    var rows: seq<string> := [];
    var more := true;
    pages := 0;
    NothingRead(all, texts);
    while more
      invariant |rows| <= |texts| && rows == Rows(texts, 0, |rows|) && !AnyBinary(all[..|rows|])
      invariant more ==> pages <= |rows| && (|rows| < |texts| || (pages == 0 && rows == []))
      invariant !more ==> |rows| == |texts| && 1 <= pages <= |texts| + 1
      decreases more, |texts| - |rows|
    {
      var page := Read(data, decode, |rows|, limit);
      ghost var stop := PageStop(texts, |rows|, limit);
      if page.Err? {
        SomeBinary(all, stop);
        return Err(page.error), pages;
      }
      NextPage(texts, |rows|, stop);
      rows := rows + page.value.lines;
      more := page.value.more;
      pages := pages + 1;
    }
    assert all[..|texts|] == all;
    RowsAre(texts, 0, |texts|);
    return Ok(rows), pages;
  }

  lemma NothingRead(all: seq<Bytes>, texts: seq<string>)
    ensures Rows(texts, 0, 0) == [] && !AnyBinary(all[..0])
  {
  }

  lemma SomeBinary(all: seq<Bytes>, stop: nat)
    requires stop <= |all| && AnyBinary(all[..stop])
    ensures AnyBinary(all)
  {
    var i :| 0 <= i < stop && Binary(all[..stop][i]);
    assert Binary(all[i]);
  }

  lemma NextPage(texts: seq<string>, from: nat, to: nat)
    requires from <= to <= |texts|
    ensures Rows(texts, 0, from) + Rows(texts, from, to) == Rows(texts, 0, to)
  {
  }
}
