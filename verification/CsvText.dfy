/** Cutting text at a separator the way repeated getline calls do. */
module CsvText {
  import opened Text
  import opened Wrappers

  /** What is cut off first, and what is left after its separator. */
  function Head(s: string, c: char): string {
    if Find(s, c).Some? then s[..Find(s, c).value] else s
  }

  function Tail(s: string, c: char): (tail: string)
    ensures s != "" ==> |tail| < |s|
  {
    if Find(s, c).Some? then s[Find(s, c).value + 1..] else ""
  }

  /** All pieces; nothing comes after a final separator. */
  function Split(s: string, c: char): seq<string>
    decreases |s|
  {
    if s == "" then [] else [Head(s, c)] + Split(Tail(s, c), c)
  }

  function Join(parts: seq<string>, c: char): string {
    if parts == [] then ""
    else if |parts| == 1 then parts[0]
    else parts[0] + [c] + Join(parts[1..], c)
  }

  ghost predicate Free(parts: seq<string>, c: char) {
    forall i :: 0 <= i < |parts| ==> c !in parts[i]
  }

  lemma SplitPart(part: string, rest: string, c: char)
    requires c !in part
    ensures Split(part + [c] + rest, c) == [part] + Split(rest, c)
  {
    FindBehind(part, rest, c);
    var s := part + [c] + rest;
    assert s[..|part|] == part && s[|part| + 1..] == rest;
  }

  /** An empty last piece is never seen. */
  function Seen(parts: seq<string>): seq<string> {
    if parts != [] && parts[|parts| - 1] == "" then parts[..|parts| - 1] else parts
  }

  lemma SeenTail(parts: seq<string>)
    requires |parts| > 1
    ensures Seen(parts) == [parts[0]] + Seen(parts[1..])
  {
  }

  /** Apart from that, cutting undoes joining. */
  lemma {:induction false} SplitJoin(parts: seq<string>, c: char)
    requires Free(parts, c)
    ensures Split(Join(parts, c), c) == Seen(parts)
  {
    if |parts| == 1 {
      if parts[0] != "" {
        SplitWhole(parts[0], c);
      }
    } else if |parts| > 1 {
      SplitJoin(parts[1..], c);
      SplitPart(parts[0], Join(parts[1..], c), c);
      SeenTail(parts);
    }
  }

  lemma SplitWhole(part: string, c: char)
    requires c !in part && part != ""
    ensures Split(part, c) == [part]
  {
    FindsFirst(part, c);
  }

  /** The pieces, each followed by the separator: a file of lines. */
  function Terminated(parts: seq<string>, c: char): string {
    if parts == [] then "" else parts[0] + [c] + Terminated(parts[1..], c)
  }

  lemma {:induction false} SplitTerminated(parts: seq<string>, c: char)
    requires Free(parts, c)
    ensures Split(Terminated(parts, c), c) == parts
  {
    if parts != [] {
      SplitTerminated(parts[1..], c);
      SplitPart(parts[0], Terminated(parts[1..], c), c);
    }
  }

  /** A line without the carriage return of a Windows line end. */
  function Clean(line: string): string {
    if line != "" && line[|line| - 1] == '\r' then line[..|line| - 1] else line
  }

  /** One carriage return at the end is dropped, no more and nothing else. */
  lemma CleanExactly(line: string)
    ensures Clean(line + ['\r']) == line
    ensures line == "" || line[|line| - 1] != '\r' ==> Clean(line) == line
  {
    assert (line + ['\r'])[..|line|] == line;
  }

  function CleanAll(lines: seq<string>): (cleaned: seq<string>)
    ensures |cleaned| == |lines|
  {
    if lines == [] then [] else [Clean(lines[0])] + CleanAll(lines[1..])
  }

  function Windows(c: char): string { if c == '\n' then ['\r', '\n'] else [c] }

  /** Every line end turned into a Windows line end. */
  function Crlf(text: string): string {
    if text == "" then "" else Windows(text[0]) + Crlf(text[1..])
  }

  lemma {:induction false} CrlfAppend(a: string, b: string)
    ensures Crlf(a + b) == Crlf(a) + Crlf(b)
  {
    if a == "" {
      assert a + b == b;
    } else {
      CrlfAppend(a[1..], b);
      assert (a + b)[1..] == a[1..] + b;
      Associates(Windows(a[0]), Crlf(a[1..]), Crlf(b));
    }
  }

  lemma {:induction false} CrlfKeepsLine(line: string)
    requires '\n' !in line
    ensures Crlf(line) == line
  {
    if line != "" {
      CrlfKeepsLine(line[1..]);
    }
  }

  lemma CrlfLine(line: string, rest: string)
    requires '\n' !in line
    ensures Crlf(line + ['\n'] + rest) == (line + ['\r']) + ['\n'] + Crlf(rest)
  {
    CrlfAppend(line, ['\n'] + rest);
    CrlfKeepsLine(line);
    assert line + ['\n'] + rest == line + (['\n'] + rest);
    assert (['\n'] + rest)[1..] == rest;
    assert Crlf(['\n'] + rest) == ['\r', '\n'] + Crlf(rest);
  }

  lemma CrlfSameFirstLine(line: string, rest: string)
    requires '\n' !in line && '\r' !in line
    ensures CleanAll(Split(Crlf(line + ['\n'] + rest), '\n')) == [line] + CleanAll(Split(Crlf(rest), '\n'))
  {
    CrlfLine(line, rest);
    SplitPart(line + ['\r'], Crlf(rest), '\n');
    var lines := [line + ['\r']] + Split(Crlf(rest), '\n');
    assert lines[1..] == Split(Crlf(rest), '\n');
    assert Clean(line + ['\r']) == line;
  }

  /** The line ends of a text without carriage returns do not matter. */
  lemma {:induction false} CrlfSameLines(text: string)
    requires '\r' !in text
    ensures CleanAll(Split(Crlf(text), '\n')) == Split(text, '\n')
    decreases |text|
  {
    var at := Find(text, '\n');
    FindsFirst(text, '\n');
    if at.Some? {
      var line, rest := text[..at.value], text[at.value + 1..];
      assert text == line + ['\n'] + rest;
      CrlfSameLines(rest);
      CrlfSameFirstLine(line, rest);
      SplitPart(line, rest, '\n');
    } else if text != "" {
      CrlfKeepsLine(text);
      SplitWhole(text, '\n');
      assert Clean(text) == text;
    }
  }

  /** Nor does cleaning change such a text's lines. */
  lemma {:induction false} CleanKeepsLines(text: string)
    requires '\r' !in text
    ensures CleanAll(Split(text, '\n')) == Split(text, '\n')
    decreases |text|
  {
    if text != "" {
      CleanKeepsLines(Tail(text, '\n'));
    }
  }
}
