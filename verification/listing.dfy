/**
 The listing parser: how the text printed by `nmcli device wifi list` is cut into
 lines and how one network identifier is taken from each data line.

 Text is ASCII here, so a byte offset and a character index coincide.
 */
module Listing {

  /** Column at which the identifier token starts on every data line. */
  const SsidColumn: nat := 8

  /** Index of the first `c` in `s`, or `|s|` when there is none. */
  function FirstIndex(s: string, c: char): (i: nat)
    ensures i <= |s|
    ensures c !in s[..i]
    ensures i < |s| ==> s[i] == c
  {
    if |s| == 0 then 0
    else if s[0] == c then 0
    else
      var j := FirstIndex(s[1..], c);
      assert s[..1 + j] == [s[0]] + s[1..][..j];
      1 + j
  }

  /** `FirstIndex` is pinned down by its contract: it is the position of the
      separator that follows a separator-free prefix. */
  lemma FirstIndexAfterPrefix(a: string, c: char, b: string)
    requires c !in a
    ensures FirstIndex(a + [c] + b, c) == |a|
  {
    var s := a + [c] + b;
    assert s[|a|] == c;
    assert s[..|a|] == a;
  }

  /** Joins pieces with one `sep` between neighbours (the inverse of `Split`). */
  function Join(parts: seq<string>, sep: char): string
    requires |parts| >= 1
  {
    if |parts| == 1 then parts[0] else parts[0] + [sep] + Join(parts[1..], sep)
  }

  /** Splits `s` at every `sep`, as Rust's `str::split` with a single-character
      pattern: `k` separators give `k + 1` pieces, empty pieces included. */
  function Split(s: string, sep: char): (parts: seq<string>)
    ensures |parts| >= 1
    ensures forall i :: 0 <= i < |parts| ==> sep !in parts[i]
    ensures Join(parts, sep) == s
    decreases |s|
  {
    var i := FirstIndex(s, sep);
    if i == |s| then
      assert s[..i] == s;
      [s]
    else
      var rest := Split(s[i + 1..], sep);
      var parts := [s[..i]] + rest;
      assert parts[1..] == rest;
      assert s == s[..i] + [sep] + s[i + 1..];
      parts
  }

  /** Splitting a join of separator-free pieces gives the pieces back. */
  lemma {:induction false} SplitJoin(parts: seq<string>, sep: char)
    requires |parts| >= 1
    requires forall i :: 0 <= i < |parts| ==> sep !in parts[i]
    ensures Split(Join(parts, sep), sep) == parts
    decreases |parts|
  {
    if |parts| == 1 {
      var s := parts[0];
      assert s[..|s|] == s;
    } else {
      var rest := Join(parts[1..], sep);
      var s := parts[0] + [sep] + rest;
      FirstIndexAfterPrefix(parts[0], sep, rest);
      assert s[..|parts[0]|] == parts[0];
      assert s[|parts[0]| + 1..] == rest;
      SplitJoin(parts[1..], sep);
      assert parts == [parts[0]] + parts[1..];
    }
  }

  /** The last piece of a join follows the last separator. */
  lemma {:induction false} JoinLast(parts: seq<string>, sep: char)
    requires |parts| >= 2
    ensures Join(parts, sep) == Join(parts[..|parts| - 1], sep) + [sep] + parts[|parts| - 1]
    decreases |parts|
  {
    if |parts| > 2 {
      JoinLast(parts[1..], sep);
      assert parts[1..][..|parts| - 2] == parts[..|parts| - 1][1..];
    }
  }

  /** The lines of a text, as Rust's `str::lines` for texts using "\n" line
      endings: the text is split at every newline, and a final empty piece
      (the text ended with a newline, or is empty) is not a line. */
  function Lines(text: string): (ls: seq<string>)
    ensures forall i :: 0 <= i < |ls| ==> '\n' !in ls[i]
    ensures |ls| == 0 <==> |text| == 0
    // a newline-terminated (or empty) text is its lines, each followed by a newline
    ensures |text| == 0 || text[|text| - 1] == '\n' ==> Unlines(ls) == text
    // otherwise the last line is the unterminated rest of the text
    ensures |text| > 0 && text[|text| - 1] != '\n' ==> Join(ls, '\n') == text
  {
    var parts := Split(text, '\n');
    SplitLastPiece(text);
    if parts[|parts| - 1] == "" then parts[..|parts| - 1] else parts
  }

  /** The last piece of a split at newlines is empty exactly when the text is
      empty or ends with a newline; the pieces before it, each followed by a
      newline, then make up the text. */
  lemma SplitLastPiece(text: string)
    ensures var parts := Split(text, '\n');
      && (parts[|parts| - 1] == "" <==> |text| == 0 || text[|text| - 1] == '\n')
      && (parts[|parts| - 1] == "" ==> Unlines(parts[..|parts| - 1]) == text)
      && (|text| == 0 <==> parts == [""])
  {
    var parts := Split(text, '\n');
    var last := parts[|parts| - 1];
    if |parts| >= 2 {
      JoinLast(parts, '\n');
    }
    if last != "" {
      assert last[|last| - 1] in last;
    } else {
      assert parts[..|parts| - 1] + [""] == parts;
    }
  }

  /** Every line followed by a newline: the text `Lines` reads back. */
  function Unlines(ls: seq<string>): string
  {
    Join(ls + [""], '\n')
  }

  /** `Unlines` writes the first line, a newline, then the rest. */
  lemma UnlinesCons(l: string, ls: seq<string>)
    ensures Unlines([l] + ls) == l + "\n" + Unlines(ls)
  {
    assert ([l] + ls) + [""] == [l] + (ls + [""]);
    assert ([l] + (ls + [""]))[1..] == ls + [""];
  }

  /** `Lines` undoes `Unlines`: a listing built from newline-free lines is read
      back line for line, empty lines included. */
  lemma LinesUnlines(ls: seq<string>)
    requires forall i :: 0 <= i < |ls| ==> '\n' !in ls[i]
    ensures Lines(Unlines(ls)) == ls
  {
    var parts := ls + [""];
    assert forall i :: 0 <= i < |parts| ==> '\n' !in parts[i] by {
      forall i | 0 <= i < |parts|
        ensures '\n' !in parts[i]
      {
        if i < |ls| {
          assert parts[i] == ls[i];
        }
      }
    }
    SplitJoin(parts, '\n');
    assert parts[..|parts| - 1] == ls;
  }

  /** The lines after the header, as `lines().skip(1)`. */
  function DataLines(text: string): seq<string>
  {
    var ls := Lines(text);
    if |ls| == 0 then [] else ls[1..]
  }

  /** Number of data lines, the count `match_evt` folds over. */
  function DataCount(text: string): nat
  {
    |DataLines(text)|
  }

  /** The data lines do not depend on what the header line says. */
  lemma {:induction false} HeaderIgnored(h1: string, h2: string, rest: string)
    requires '\n' !in h1 && '\n' !in h2
    ensures DataLines(h1 + "\n" + rest) == DataLines(h2 + "\n" + rest)
  {
    DataLinesAfterHeader(h1, rest);
    DataLinesAfterHeader(h2, rest);
  }

  /** The data lines of `header + "\n" + rest` are the lines of `rest`. */
  lemma {:induction false} DataLinesAfterHeader(header: string, rest: string)
    requires '\n' !in header
    ensures DataLines(header + "\n" + rest) == Lines(rest)
  {
    var text := header + "\n" + rest;
    assert text == header + ['\n'] + rest;
    FirstIndexAfterPrefix(header, '\n', rest);
    assert text[..|header|] == header;
    assert text[|header| + 1..] == rest;
    var parts := Split(text, '\n');
    var tail := Split(rest, '\n');
    assert parts == [header] + tail;
    assert parts[|parts| - 1] == tail[|tail| - 1];
    if tail[|tail| - 1] == "" {
      assert parts[..|parts| - 1] == [header] + tail[..|tail| - 1];
    }
    assert Lines(text) == [header] + Lines(rest);
    assert ([header] + Lines(rest))[1..] == Lines(rest);
  }

  /** A header followed by newline-terminated lines has exactly those lines as
      its data lines. */
  lemma DataLinesOfUnlines(header: string, ls: seq<string>)
    requires '\n' !in header
    requires forall i :: 0 <= i < |ls| ==> '\n' !in ls[i]
    ensures DataLines(header + "\n" + Unlines(ls)) == ls
  {
    DataLinesAfterHeader(header, Unlines(ls));
    LinesUnlines(ls);
  }

  /** Every data line reaches the identifier column; `l[8..]` panics otherwise. */
  predicate Parsable(text: string)
  {
    forall i :: 0 <= i < |DataLines(text)| ==> |DataLines(text)[i]| >= SsidColumn
  }

  /** `token` is what the listing gives as the identifier of `line`: the longest
      space-free run of characters starting at column 8. */
  predicate IsSsidField(line: string, token: string)
  {
    && |line| >= SsidColumn
    && token <= line[SsidColumn..]
    && ' ' !in token
    && (|token| == |line| - SsidColumn || line[SsidColumn + |token|] == ' ')
  }

  /** At most one token fits `IsSsidField`. */
  lemma SsidFieldUnique(line: string, a: string, b: string)
    requires IsSsidField(line, a) && IsSsidField(line, b)
    ensures a == b
  {
  }

  /** The identifier of one data line: `l[8..].split(' ').next()`. */
  function SsidOf(line: string): (token: string)
    requires |line| >= SsidColumn
    ensures IsSsidField(line, token)
  {
    var field := line[SsidColumn..];
    Split(field, ' ')[0]
  }

  /** `get_ssids`: one identifier per data line, in listing order. */
  function GetSsids(text: string): (ssids: seq<string>)
    requires Parsable(text)
    ensures |ssids| == DataCount(text)
    ensures forall i :: 0 <= i < |ssids| ==> IsSsidField(DataLines(text)[i], ssids[i])
  {
    var data := DataLines(text);
    seq(|data|, i requires 0 <= i < |data| => SsidOf(data[i]))
  }
}
