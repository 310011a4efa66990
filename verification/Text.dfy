/** The string functions of Go's standard library that the settings file and key naming use, on code points. */
module Text {
  import opened Basics

  // ---------------------------------------------------------------- trimming

  datatype Cutset = Spaces | Quotes | Slashes

  /** unicode.IsSpace. */
  predicate IsSpace(c: char) {
    || '\t' <= c <= '\r'
    || c == ' ' || c == '\U{0085}' || c == '\U{00A0}' || c == '\U{1680}'
    || '\U{2000}' <= c <= '\U{200A}'
    || c == '\U{2028}' || c == '\U{2029}' || c == '\U{202F}' || c == '\U{205F}' || c == '\U{3000}'
  }

  predicate Cuts(cut: Cutset, c: char) {
    match cut
    case Spaces => IsSpace(c)
    case Quotes => c == '"' || c == '\''
    case Slashes => c == '/'
  }

  function TrimLeft(s: string, cut: Cutset): string {
    if s != [] && Cuts(cut, s[0]) then TrimLeft(s[1..], cut) else s
  }

  function TrimRight(s: string, cut: Cutset): string {
    if s != [] && Cuts(cut, s[|s| - 1]) then TrimRight(s[..|s| - 1], cut) else s
  }

  function Trim(s: string, cut: Cutset): string {
    TrimRight(TrimLeft(s, cut), cut)
  }

  /** Nothing to cut at either end. */
  predicate Trimmed(s: string, cut: Cutset) {
    s == [] || (!Cuts(cut, s[0]) && !Cuts(cut, s[|s| - 1]))
  }

  lemma {:induction false} TrimLeftShrinks(s: string, cut: Cutset)
    ensures |TrimLeft(s, cut)| <= |s| && (|TrimLeft(s, cut)| == |s| ==> TrimLeft(s, cut) == s)
    ensures TrimLeft(s, cut) != [] ==>
      !Cuts(cut, TrimLeft(s, cut)[0]) && TrimLeft(s, cut)[|TrimLeft(s, cut)| - 1] == s[|s| - 1]
    ensures forall c | c in TrimLeft(s, cut) :: c in s
  {
    if s != [] && Cuts(cut, s[0]) {
      TrimLeftShrinks(s[1..], cut);
    }
  }

  lemma {:induction false} TrimRightShrinks(s: string, cut: Cutset)
    ensures |TrimRight(s, cut)| <= |s| && (|TrimRight(s, cut)| == |s| ==> TrimRight(s, cut) == s)
    ensures TrimRight(s, cut) != [] ==>
      !Cuts(cut, TrimRight(s, cut)[|TrimRight(s, cut)| - 1]) && TrimRight(s, cut)[0] == s[0]
    ensures forall c | c in TrimRight(s, cut) :: c in s
  {
    if s != [] && Cuts(cut, s[|s| - 1]) {
      TrimRightShrinks(s[..|s| - 1], cut);
    }
  }

  /** Trimming cuts all there is to cut, and nothing else. */
  lemma TrimExact(s: string, cut: Cutset)
    ensures Trimmed(Trim(s, cut), cut)
    ensures Trim(s, cut) == s <==> Trimmed(s, cut)
    ensures |Trim(s, cut)| <= |s| && (|Trim(s, cut)| == |s| ==> Trim(s, cut) == s)
    ensures forall c | c in Trim(s, cut) :: c in s
  {
    TrimLeftShrinks(s, cut);
    TrimRightShrinks(TrimLeft(s, cut), cut);
  }

  /** What trimming leaves of a text that lies between characters it cuts. */
  lemma {:induction false} TrimBetween(a: string, t: string, b: string, cut: Cutset)
    requires Trimmed(t, cut) && (forall c | c in a :: Cuts(cut, c)) && (forall c | c in b :: Cuts(cut, c))
    ensures Trim(a + t + b, cut) == t
  {
    if a != [] {
      assert (a + t + b)[1..] == a[1..] + t + b;
      assert a[0] in a;
      TrimBetween(a[1..], t, b, cut);
    } else if t == [] {
      assert a + t + b == b;
      AllCut(b, cut);
    } else {
      assert a + t + b == t + b;
      TrimRightTail(t, b, cut);
      AllCut(b, cut);
    }
  }

  lemma {:induction false} AllCut(s: string, cut: Cutset)
    requires forall c | c in s :: Cuts(cut, c)
    ensures TrimLeft(s, cut) == [] && TrimRight(s, cut) == []
  {
    if s != [] {
      assert s[0] in s && s[|s| - 1] in s;
      AllCut(s[1..], cut);
      AllCut(s[..|s| - 1], cut);
    }
  }

  /** The characters cut, one by one: white space as Unicode has it, both kinds of straight quotes, the slash. */
  lemma CutExactly(c: char)
    ensures Cuts(Quotes, c) <==> c in {'"', '\''}
    ensures Cuts(Slashes, c) <==> c == '/'
    ensures Cuts(Spaces, c) <==>
      c as int in {9, 10, 11, 12, 13, 32, 0x85, 0xA0, 0x1680, 0x2000, 0x2001, 0x2002, 0x2003, 0x2004, 0x2005, 0x2006,
                   0x2007, 0x2008, 0x2009, 0x200A, 0x2028, 0x2029, 0x202F, 0x205F, 0x3000}
  {
  }

  lemma {:induction false} TrimRightTail(a: string, b: string, cut: Cutset)
    requires a != [] && !Cuts(cut, a[|a| - 1])
    ensures TrimRight(a + b, cut) == a + TrimRight(b, cut)
  {
    if b == [] {
      assert a + b == a;
    } else if Cuts(cut, b[|b| - 1]) {
      assert (a + b)[..|a + b| - 1] == a + b[..|b| - 1];
      TrimRightTail(a, b[..|b| - 1], cut);
    }
  }

  /** Cutting the right end first makes no difference. */
  lemma {:induction false} TrimOfTrimRight(s: string, cut: Cutset)
    ensures Trim(TrimRight(s, cut), cut) == Trim(s, cut)
  {
    TrimLeftShrinks(s, cut);
    if s != [] && Cuts(cut, s[0]) {
      TrimRightFirst(s, cut);
      TrimOfTrimRight(s[1..], cut);
    } else {
      TrimRightShrinks(s, cut);
      TrimRightIdempotent(s, cut);
    }
  }

  lemma {:induction false} TrimRightFirst(s: string, cut: Cutset)
    requires s != [] && Cuts(cut, s[0])
    ensures TrimLeft(TrimRight(s, cut), cut) == TrimLeft(TrimRight(s[1..], cut), cut)
  {
    if Cuts(cut, s[|s| - 1]) {
      if |s| == 1 {
        assert s[..0] == s[1..];
      } else {
        assert s[..|s| - 1][1..] == s[1..][..|s[1..]| - 1];
        TrimRightFirst(s[..|s| - 1], cut);
      }
    } else {
      assert s[1..] != [] ==> s[1..][|s[1..]| - 1] == s[|s| - 1];
    }
  }

  lemma TrimRightIdempotent(s: string, cut: Cutset)
    ensures TrimRight(TrimRight(s, cut), cut) == TrimRight(s, cut)
  {
    TrimRightShrinks(s, cut);
  }

  // ---------------------------------------------------------------- cutting at a separator

  datatype Parts = Parts(before: string, after: string)

  /** strings.Cut: around the first separator. */
  function Cut(s: string, sep: char): Option<Parts> {
    if s == [] then None
    else if s[0] == sep then Some(Parts([], s[1..]))
    else
      match Cut(s[1..], sep)
      case None => None
      case Some(p) => Some(Parts([s[0]] + p.before, p.after))
  }

  lemma {:induction false} CutExact(s: string, sep: char)
    ensures Cut(s, sep).None? <==> sep !in s
    ensures Cut(s, sep).Some? ==> var p := Cut(s, sep).value; s == p.before + [sep] + p.after && sep !in p.before
  {
    if s != [] && s[0] != sep {
      CutExact(s[1..], sep);
      assert s == [s[0]] + s[1..];
    }
  }

  lemma {:induction false} CutFirst(before: string, sep: char, after: string)
    requires sep !in before
    ensures Cut(before + [sep] + after, sep) == Some(Parts(before, after))
  {
    var s := before + [sep] + after;
    if before == [] {
      assert s[1..] == after;
    } else {
      assert s[0] == before[0] && s[1..] == before[1..] + [sep] + after;
      CutFirst(before[1..], sep, after);
      assert before == [before[0]] + before[1..];
    }
  }

  // ---------------------------------------------------------------- lines

  const NEWLINE: char := '\n'

  ghost predicate OneLine(s: string) {
    NEWLINE !in s
  }

  /** strings.Split at line breaks. */
  function Split(s: string): (lines: seq<string>)
    ensures |lines| > 0
  {
    if s == [] then [[]]
    else
      var rest := Split(s[1..]);
      if s[0] == NEWLINE then [[]] + rest else [[s[0]] + rest[0]] + rest[1..]
  }

  /** strings.Join with line breaks. */
  function Join(lines: seq<string>): string {
    if lines == [] then []
    else if |lines| == 1 then lines[0]
    else lines[0] + [NEWLINE] + Join(lines[1..])
  }

  lemma {:induction false} SplitIntoLines(s: string)
    ensures forall ln | ln in Split(s) :: OneLine(ln)
  {
    if s != [] {
      SplitIntoLines(s[1..]);
      var rest := Split(s[1..]);
      assert rest == [rest[0]] + rest[1..];
      assert rest[0] in rest;
    }
  }

  lemma {:induction false} SplitJoin(lines: seq<string>)
    requires lines != [] && forall ln | ln in lines :: OneLine(ln)
    ensures Split(Join(lines)) == lines
  {
    assert lines[0] in lines;
    if |lines| == 1 {
      SplitLine(lines[0]);
    } else {
      SplitJoin(lines[1..]);
      SplitFirst(lines[0], Join(lines[1..]));
    }
  }

  lemma {:induction false} SplitLine(s: string)
    requires OneLine(s)
    ensures Split(s) == [s]
  {
    if s != [] {
      SplitLine(s[1..]);
      assert s == [s[0]] + s[1..];
    }
  }

  lemma {:induction false} SplitFirst(line: string, rest: string)
    requires OneLine(line)
    ensures Split(line + [NEWLINE] + rest) == [line] + Split(rest)
  {
    var s := line + [NEWLINE] + rest;
    if line == [] {
      assert s[1..] == rest;
    } else {
      assert s[1..] == line[1..] + [NEWLINE] + rest;
      SplitFirst(line[1..], rest);
      assert line == [line[0]] + line[1..];
    }
  }
}
