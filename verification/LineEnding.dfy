/** Line endings: text is compared with LF and written back in a file's own ending. */
module LineEnding {
  import opened Utf8

  datatype LineEnding = Lf | CrLf | Cr

  const LF: Scalar := [10]
  const CR: Scalar := [13]

  // ------------------------------------------------------- the operations

  /** Some two bytes in a row are CR and LF. */
  predicate BytePair(b: seq<Byte>) {
    |b| >= 2 && ((b[0] == 13 && b[1] == 10) || BytePair(b[1..]))
  }

  /** The line ending a file already uses, LF when it has none. */
  function Detect(b: seq<Byte>): LineEnding {
    if BytePair(b) then CrLf else if 13 in b then Cr else Lf
  }

  function ReplacePairs(s: Str): Str {
    if s == [] then []
    else if |s| >= 2 && s[0] == CR && s[1] == LF then [LF] + ReplacePairs(s[2..])
    else [s[0]] + ReplacePairs(s[1..])
  }

  function ReplaceEach(s: Str, c: Scalar, to: Str): Str {
    if s == [] then [] else (if s[0] == c then to else [s[0]]) + ReplaceEach(s[1..], c, to)
  }

  /** CRLF and lone CR turned into LF. */
  function Normalise(s: Str): Str {
    if CR !in s then s else ReplaceEach(ReplacePairs(s), CR, [LF])
  }

  /** LF text written with a line ending. */
  function Apply(e: LineEnding, s: Str): Str {
    match e
    case Lf => s
    case CrLf => ReplaceEach(s, LF, [CR, LF])
    case Cr => ReplaceEach(s, LF, [CR])
  }

  // ------------------------------------------------------- there and back

  lemma {:induction false} PairsBack(s: Str)
    requires CR !in s
    ensures ReplacePairs(ReplaceEach(s, LF, [CR, LF])) == s
  {
    if s != [] {
      PairsBack(s[1..]);
      var r := ReplaceEach(s[1..], LF, [CR, LF]);
      if s[0] == LF {
        assert ([CR, LF] + r)[2..] == r;
      } else {
        assert ([s[0]] + r)[1..] == r;
      }
      assert s == [s[0]] + s[1..];
    }
  }

  lemma {:induction false} NoneToReplace(s: Str, c: Scalar, to: Str)
    requires c !in s
    ensures ReplaceEach(s, c, to) == s
  {
    if s != [] {
      NoneToReplace(s[1..], c, to);
      assert s == [s[0]] + s[1..];
    }
  }

  lemma {:induction false} NoPairs(s: Str)
    requires LF !in s
    ensures ReplacePairs(s) == s
  {
    if s != [] {
      NoPairs(s[1..]);
      assert s == [s[0]] + s[1..];
    }
  }

  lemma {:induction false} EachBack(s: Str)
    requires CR !in s
    ensures ReplaceEach(ReplaceEach(s, LF, [CR]), CR, [LF]) == s
    ensures LF !in ReplaceEach(s, LF, [CR])
  {
    if s != [] {
      EachBack(s[1..]);
      var r := ReplaceEach(s[1..], LF, [CR]);
      assert ((if s[0] == LF then [CR] else [s[0]]) + r)[1..] == r;
      assert s == [s[0]] + s[1..];
    }
  }

  /** Writing an LF text in any ending and reading it back gives the text. */
  lemma {:induction false} NormaliseApply(e: LineEnding, s: Str)
    requires CR !in s
    ensures Normalise(Apply(e, s)) == s
  {
    match e {
      case Lf =>
      case CrLf =>
        PairsBack(s);
        NoneToReplace(s, CR, [LF]);
        if CR !in Apply(e, s) { WritesCr(s, [CR, LF]); NoneToReplace(s, LF, [CR, LF]); }
      case Cr =>
        EachBack(s);
        NoPairs(Apply(e, s));
        if CR !in Apply(e, s) { WritesCr(s, [CR]); NoneToReplace(s, LF, [CR]); }
    }
  }

  lemma {:induction false} WritesCr(s: Str, to: Str)
    requires CR in to
    ensures LF in s ==> CR in ReplaceEach(s, LF, to)
  {
    if s != [] { WritesCr(s[1..], to); }
  }

  // ------------------------------------------------------- one pass

  /** The text with every line break, CRLF, CR or LF, as one LF. */
  function Unified(s: Str): Str {
    if s == [] then []
    else if |s| >= 2 && s[0] == CR && s[1] == LF then [LF] + Unified(s[2..])
    else [if s[0] == CR then LF else s[0]] + Unified(s[1..])
  }

  lemma {:induction false} TwoPasses(s: Str)
    ensures ReplaceEach(ReplacePairs(s), CR, [LF]) == Unified(s)
    decreases |s|
  {
    if s != [] {
      var rest := if |s| >= 2 && s[0] == CR && s[1] == LF then s[2..] else s[1..];
      var first: Str := [if |s| >= 2 && s[0] == CR && s[1] == LF then LF else s[0]];
      TwoPasses(rest);
      assert (first + ReplacePairs(rest))[1..] == ReplacePairs(rest);
    }
  }

  lemma {:induction false} NothingToUnify(s: Str)
    requires CR !in s
    ensures Unified(s) == s
  {
    if s != [] {
      NothingToUnify(s[1..]);
      assert s == [s[0]] + s[1..];
    }
  }

  /** Replacing pairs and then lone CRs makes one LF of each line break, however they mix. */
  lemma {:induction false} NormaliseUnifies(s: Str)
    ensures Normalise(s) == Unified(s)
  {
    if CR in s { TwoPasses(s); } else { NothingToUnify(s); }
  }

  // ------------------------------------------------------- a body never holds a CR

  lemma {:induction false} AllReplaced(s: Str, to: Str)
    requires CR !in to
    ensures CR !in ReplaceEach(s, CR, to)
  {
    if s != [] { AllReplaced(s[1..], to); }
  }

  /** Whatever a file holds, its body has no CR, and a body is left as it is. */
  lemma {:induction false} NormalisedHasNoCr(s: Str)
    ensures CR !in Normalise(s)
    ensures Normalise(Normalise(s)) == Normalise(s)
  {
    if CR in s { AllReplaced(ReplacePairs(s), [LF]); }
  }

  // ------------------------------------------------------- detection

  predicate Pair(s: Str) {
    |s| >= 2 && ((s[0] == CR && s[1] == LF) || Pair(s[1..]))
  }

  lemma {:induction false} PairBehindWide(x: seq<Byte>, b: seq<Byte>)
    requires forall i :: 0 <= i < |x| ==> x[i] >= 0x80
    ensures BytePair(x + b) == BytePair(b)
    ensures 13 in x + b <==> 13 in b
  {
    if x == [] {
      assert x + b == b;
    } else {
      assert (x + b)[1..] == x[1..] + b;
      PairBehindWide(x[1..], b);
      assert x + b == [x[0]] + (x[1..] + b);
    }
  }

  lemma {:induction false} FirstByte(s: Str)
    requires s != []
    ensures Bytes(s) != [] && Bytes(s)[0] == s[0][0]
    ensures s[0] == CR <==> s[0][0] == 13
    ensures s[0] == LF <==> s[0][0] == 10
  {
    assert Bytes(s) == s[0] + Bytes(s[1..]);
    assert |s[0]| == 1 ==> s[0] == [s[0][0]];
  }

  /** CR, LF and CRLF are found in the bytes exactly where they are in the text. */
  lemma {:induction false} DetectsCharacters(s: Str)
    ensures BytePair(Bytes(s)) == Pair(s)
    ensures 13 in Bytes(s) <==> CR in s
  {
    if s != [] {
      var b := Bytes(s[1..]);
      DetectsCharacters(s[1..]);
      FirstByte(s);
      if |s[0]| == 1 {
        assert s[0] == [s[0][0]];
        assert ([s[0][0]] + b)[1..] == b;
        if |s| >= 2 { FirstByte(s[1..]); }
      } else {
        assert s[0][0] >= 0xC0;
        PairBehindWide(s[0], b);
      }
    }
  }

  lemma {:induction false} PairSomewhere(s: Str)
    ensures Pair(s) <==> exists i :: 0 <= i < |s| - 1 && s[i] == CR && s[i + 1] == LF
  {
    if |s| >= 2 {
      PairSomewhere(s[1..]);
      if i :| 0 <= i < |s| - 1 && s[i] == CR && s[i + 1] == LF {
        if i > 0 { assert s[1..][i - 1] == CR && s[1..][i - 1 + 1] == LF; }
      }
      if i :| 0 <= i < |s[1..]| - 1 && s[1..][i] == CR && s[1..][i + 1] == LF {
        assert s[i + 1] == CR && s[i + 1 + 1] == LF;
      }
    }
  }

  /** What is found in a file, however its breaks mix: CRLF if it has one anywhere, then CR, then LF. */
  lemma {:induction false} DetectMeans(s: Str)
    ensures Detect(Bytes(s)) == CrLf <==> exists i :: 0 <= i < |s| - 1 && s[i] == CR && s[i + 1] == LF
    ensures Detect(Bytes(s)) == Lf <==> CR !in s
  {
    DetectsCharacters(s);
    PairSomewhere(s);
  }

  lemma {:induction false} WritesPairs(s: Str)
    requires CR !in s
    ensures Pair(ReplaceEach(s, LF, [CR, LF])) <==> LF in s
  {
    if s != [] {
      WritesPairs(s[1..]);
      var r := ReplaceEach(s[1..], LF, [CR, LF]);
      if s[0] != LF {
        assert ([s[0]] + r)[1..] == r;
      } else {
        assert ([CR, LF] + r)[0] == CR && ([CR, LF] + r)[1] == LF;
      }
    }
  }

  lemma {:induction false} NoLfNoPair(s: Str)
    requires LF !in s || CR !in s
    ensures !Pair(s)
  {
    if s != [] { NoLfNoPair(s[1..]); }
  }

  /** A file written in an ending is found in it again, when it has a line break. */
  lemma {:induction false} DetectApply(e: LineEnding, s: Str)
    requires CR !in s
    ensures Detect(Bytes(Apply(e, s))) == if LF in s then e else Lf
  {
    var t := Apply(e, s);
    DetectsCharacters(t);
    if LF !in s {
      NoneToReplace(s, LF, [CR, LF]);
      NoneToReplace(s, LF, [CR]);
      NoLfNoPair(s);
    } else {
      match e {
        case Lf => NoLfNoPair(s);
        case CrLf => WritesPairs(s);
        case Cr =>
          EachBack(s);
          NoLfNoPair(t);
          WritesCr(s, [CR]);
      }
    }
  }
}
