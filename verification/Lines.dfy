// CRLF-terminated lines: how a block of them is written, where it ends, and how
// it is cut back into lines.
module Lines {
  import opened Results
  import opened Bytes

  // Every line feed follows a carriage return and every carriage return is
  // followed by a line feed.
  predicate GoodBreakAt(s: bytes, i: int)
    requires 0 <= i < |s|
  {
    (s[i] == LF ==> i > 0 && s[i - 1] == CR) && (s[i] == CR ==> i + 1 < |s| && s[i + 1] == LF)
  }

  predicate GoodBreaks(s: bytes) {
    forall i :: 0 <= i < |s| ==> GoodBreakAt(s, i)
  }

  predicate IsLine(l: bytes) {
    l != [] && OneLine(l)
  }

  predicate AllLines(ls: seq<bytes>) {
    forall i :: 0 <= i < |ls| ==> IsLine(ls[i])
  }

  // Each line followed by CRLF.
  function WriteLines(ls: seq<bytes>): bytes {
    if ls == [] then [] else ls[0] + (CRLF + WriteLines(ls[1..]))
  }

  // The same without the last CRLF.
  function WriteLinesOpen(ls: seq<bytes>): bytes {
    if ls == [] then [] else if |ls| == 1 then ls[0] else ls[0] + (CRLF + WriteLinesOpen(ls[1..]))
  }

  lemma {:induction false} WriteLinesOpenMeaning(ls: seq<bytes>)
    requires ls != []
    ensures WriteLines(ls) == WriteLinesOpen(ls) + CRLF
  {
    if |ls| == 1 {
      assert WriteLines(ls[1..]) == [];
    } else {
      WriteLinesOpenMeaning(ls[1..]);
      var rest := WriteLinesOpen(ls[1..]);
      assert ls[0] + (CRLF + (rest + CRLF)) == (ls[0] + (CRLF + rest)) + CRLF;
    }
  }

  lemma {:induction false} WriteLinesAppend(a: seq<bytes>, b: seq<bytes>)
    ensures WriteLines(a + b) == WriteLines(a) + WriteLines(b)
  {
    if a == [] {
      assert a + b == b;
    } else {
      WriteLinesAppend(a[1..], b);
      assert (a + b)[1..] == a[1..] + b;
      assert a[0] + (CRLF + (WriteLines(a[1..]) + WriteLines(b)))
          == (a[0] + (CRLF + WriteLines(a[1..]))) + WriteLines(b);
    }
  }

  lemma OneLineGoodBreaks(s: bytes)
    requires OneLine(s)
    ensures GoodBreaks(s)
  {
    forall i | 0 <= i < |s| ensures GoodBreakAt(s, i) {
      assert !IsLineBreak(s[i]);
    }
  }

  lemma GoodBreaksConcat(a: bytes, b: bytes)
    requires GoodBreaks(a) && GoodBreaks(b)
    ensures GoodBreaks(a + b)
  {
    forall i | 0 <= i < |a + b| ensures GoodBreakAt(a + b, i) {
      if i < |a| {
        assert GoodBreakAt(a, i);
      } else {
        assert GoodBreakAt(b, i - |a|);
      }
    }
  }

  lemma {:induction false} WriteLinesGoodBreaks(ls: seq<bytes>)
    requires AllLines(ls)
    ensures GoodBreaks(WriteLines(ls))
  {
    if ls != [] {
      WriteLinesGoodBreaks(ls[1..]);
      OneLineGoodBreaks(ls[0]);
      assert GoodBreakAt(CRLF, 0) && GoodBreakAt(CRLF, 1);
      GoodBreaksConcat(CRLF, WriteLines(ls[1..]));
      GoodBreaksConcat(ls[0], CRLF + WriteLines(ls[1..]));
    }
  }

  // ----- where the block ends ------------------------------------------------

  lemma BlankLineAfterLine(l: bytes, rest: bytes, i: nat)
    requires IsLine(l)
    ensures i < |l| ==> !BlankLineAt(l + (CRLF + rest), i)
    ensures i == |l| ==> (BlankLineAt(l + (CRLF + rest), i) <==> CrlfAt(rest, 0))
    ensures i == |l| + 1 ==> !BlankLineAt(l + (CRLF + rest), i)
    ensures i >= |l| + 2 ==> (BlankLineAt(l + (CRLF + rest), i) <==> BlankLineAt(rest, i - |l| - 2))
  {
    var s := l + (CRLF + rest);
    assert s[|l|] == CR && s[|l| + 1] == LF;
    assert forall k :: |l| + 2 <= k < |s| ==> s[k] == rest[k - |l| - 2];
    if i < |l| {
      assert s[i] == l[i] && !IsLineBreak(l[i]);
    }
  }

  lemma FirstLineNotCrlf(ls: seq<bytes>, suffix: bytes)
    requires ls != [] && AllLines(ls)
    ensures !CrlfAt(WriteLines(ls) + suffix, 0)
  {
    assert IsLine(ls[0]) && !IsLineBreak(ls[0][0]);
    assert (WriteLines(ls) + suffix)[0] == ls[0][0];
  }

  // The first CRLFCRLF after a block of non-empty lines is the one that ends it.
  lemma {:induction false} BlockEnd(ls: seq<bytes>, suffix: bytes)
    requires ls != [] && AllLines(ls)
    ensures |WriteLines(ls)| >= 2
    ensures FindBlankLine(WriteLines(ls) + (CRLF + suffix)) == Some(|WriteLines(ls)| - 2)
  {
    hide FindBlankLine, BlankLineAt;
    var tail := WriteLines(ls[1..]);
    var rest := tail + (CRLF + suffix);
    var s := WriteLines(ls) + (CRLF + suffix);
    assert s == ls[0] + (CRLF + rest);
    var end := |WriteLines(ls)| - 2;
    assert end == |ls[0]| + |tail|;
    if |ls| == 1 {
      assert tail == [] && rest == CRLF + suffix;
      BlankLineAfterLine(ls[0], rest, end);
    } else {
      BlockEnd(ls[1..], suffix);
      FirstLineNotCrlf(ls[1..], CRLF + suffix);
      BlankLineAfterLine(ls[0], rest, end);
    }
    forall i | 0 <= i < end ensures !BlankLineAt(s, i) {
      BlankLineAfterLine(ls[0], rest, i);
    }
    FirstBlankLine(s, end);
  }

  lemma FirstBlankLine(s: bytes, at: nat)
    requires BlankLineAt(s, at) && forall i :: 0 <= i < at ==> !BlankLineAt(s, i)
    ensures FindBlankLine(s) == Some(at)
  {
    hide BlankLineAt, FindBlankLine;
  }

  lemma FirstCrlf(s: bytes, at: nat)
    requires CrlfAt(s, at) && forall i :: 0 <= i < at ==> !CrlfAt(s, i)
    ensures FindCrlf(s) == Some(at)
  {
    hide CrlfAt, FindCrlf;
  }

  // The first CRLF after a line ends that line.
  lemma LineEnd(l: bytes, suffix: bytes)
    requires OneLine(l)
    ensures FindCrlf(l + (CRLF + suffix)) == Some(|l|)
  {
    var s := l + (CRLF + suffix);
    forall i | 0 <= i < |l| ensures !CrlfAt(s, i) {
      assert s[i] == l[i] && !IsLineBreak(l[i]);
    }
    FirstCrlf(s, |l|);
  }

  // ----- cutting back into lines ---------------------------------------------

  function StripCr(s: bytes): bytes {
    if s != [] && s[|s| - 1] == CR then s[..|s| - 1] else s
  }

  function CutLines(s: bytes): seq<bytes> {
    StripAll(SplitOn(s, LF))
  }

  function StripAll(pieces: seq<bytes>): seq<bytes> {
    if pieces == [] then [] else [StripCr(pieces[0])] + StripAll(pieces[1..])
  }

  lemma CutOneLine(l: bytes)
    requires IsLine(l)
    ensures CutLines(l) == [l]
  {
    forall i | 0 <= i < |l| ensures l[i] != LF && l[i] != CR {
      assert !IsLineBreak(l[i]);
    }
    assert FindByte(l, LF).None?;
    assert StripAll([l][1..]) == [];
  }

  lemma CutFirstLine(l: bytes, rest: bytes)
    requires IsLine(l)
    ensures CutLines(l + (CRLF + rest)) == [l] + CutLines(rest)
  {
    var s := l + (CRLF + rest);
    forall i | 0 <= i < |l| + 1 ensures s[i] != LF {
      if i < |l| {
        assert s[i] == l[i] && !IsLineBreak(l[i]);
      }
    }
    FirstByte(s, LF, |l| + 1);
    assert s[..|l| + 1] == l + [CR];
    assert s[|l| + 2..] == rest;
    assert StripCr(l + [CR]) == l;
    assert ([l + [CR]] + SplitOn(rest, LF))[1..] == SplitOn(rest, LF);
  }

  // Cutting a written block gives its lines back.
  lemma {:induction false} CutWrittenLines(ls: seq<bytes>)
    requires ls != [] && AllLines(ls)
    ensures CutLines(WriteLinesOpen(ls)) == ls
  {
    hide CutLines;
    assert IsLine(ls[0]);
    if |ls| == 1 {
      CutOneLine(ls[0]);
    } else {
      CutFirstLine(ls[0], WriteLinesOpen(ls[1..]));
      CutWrittenLines(ls[1..]);
    }
  }
}
