/**
 String splitting and joining as the source's `split` and `join` do it, and the
 facts about separators that path prefixes and line diffs rest on.
 The prefix test `startsWith` is Dafny's `<=` on sequences.
 */
module Text {

  function Split(s: string, sep: char): (parts: seq<string>)
    ensures |parts| >= 1
    ensures forall part | part in parts :: sep !in part
  {
    if s == "" then [""] else Consed(s[0], Split(s[1..], sep), sep)
  }

  function Join(parts: seq<string>, sep: char): string {
    if |parts| == 0 then ""
    else if |parts| == 1 then parts[0]
    else parts[0] + [sep] + Join(parts[1..], sep)
  }

  lemma {:induction false} JoinSplit(s: string, sep: char)
    ensures Join(Split(s, sep), sep) == s
  {
    if s != "" {
      var rest := Split(s[1..], sep);
      JoinSplit(s[1..], sep);
      if s[0] == sep {
        assert Split(s, sep)[1..] == rest;
      } else {
        assert Split(s, sep)[1..] == rest[1..];
      }
    }
  }

  lemma {:induction false} SplitPlain(s: string, sep: char)
    requires sep !in s
    ensures Split(s, sep) == [s]
  {
    if s != "" {
      SplitPlain(s[1..], sep);
      assert [s[0]] + s[1..] == s;
    }
  }

  /** `Split` after one more leading character. */
  function Consed(c: char, parts: seq<string>, sep: char): seq<string>
    requires parts != []
  {
    if c == sep then [""] + parts else [[c] + parts[0]] + parts[1..]
  }

  lemma ConsedConcat(c: char, x: seq<string>, y: seq<string>, sep: char)
    requires x != []
    ensures Consed(c, x + y, sep) == Consed(c, x, sep) + y
  {
    assert (x + y)[0] == x[0] && (x + y)[1..] == x[1..] + y;
  }

  lemma {:induction false} SplitConcat(a: string, b: string, sep: char)
    ensures Split(a + [sep] + b, sep) == Split(a, sep) + Split(b, sep)
  {
    var whole := a + [sep] + b;
    if a == "" {
      assert whole[1..] == b;
    } else {
      SplitConcat(a[1..], b, sep);
      assert whole[0] == a[0] && whole[1..] == a[1..] + [sep] + b;
      ConsedConcat(a[0], Split(a[1..], sep), Split(b, sep), sep);
    }
  }

  lemma {:induction false} JoinConcat(a: seq<string>, b: seq<string>, sep: char)
    requires a != [] && b != []
    ensures Join(a + b, sep) == Join(a, sep) + [sep] + Join(b, sep)
  {
    if |a| == 1 {
      assert (a + b)[1..] == b;
    } else {
      JoinConcat(a[1..], b, sep);
      assert (a + b)[1..] == a[1..] + b;
    }
  }

  /** A path is at or under `p`, as the source tests it. */
  predicate AtOrUnder(path: string, p: string) {
    path == p || p + "/" <= path
  }

  /** The string test agrees with the prefix order on segments. */
  lemma {:induction false} AtOrUnderIsSegmentPrefix(path: string, p: string)
    ensures AtOrUnder(path, p) <==> Split(p, '/') <= Split(path, '/')
  {
    var ps, qs := Split(p, '/'), Split(path, '/');
    if p + "/" <= path {
      var rest := path[|p| + 1..];
      assert path == p + ['/'] + rest;
      SplitConcat(p, rest, '/');
    }
    if ps <= qs {
      JoinSplit(p, '/');
      JoinSplit(path, '/');
      if |ps| == |qs| {
        assert ps == qs;
      } else {
        var tail := qs[|ps|..];
        assert qs == ps + tail;
        JoinConcat(ps, tail, '/');
        assert path == p + "/" + Join(tail, '/');
      }
    }
  }

  function LastSlash(p: string): (i: nat)
    requires '/' in p
    ensures i < |p| && p[i] == '/' && forall j | i < j < |p| :: p[j] != '/'
  {
    if p[|p| - 1] == '/' then |p| - 1
    else
      assert p == p[..|p| - 1] + [p[|p| - 1]];
      assert forall j | 0 <= j < |p| - 1 :: p[..|p| - 1][j] == p[j];
      LastSlash(p[..|p| - 1])
  }

  /** Cutting at the last separator splits off the last segment. */
  lemma {:induction false} LastSegment(p: string)
    requires '/' in p
    ensures Split(p, '/') == Split(p[..LastSlash(p)], '/') + [p[LastSlash(p) + 1..]]
  {
    var i := LastSlash(p);
    assert p == p[..i] + ['/'] + p[i + 1..];
    SplitConcat(p[..i], p[i + 1..], '/');
    SplitPlain(p[i + 1..], '/');
  }

  /** Length of `s` in UTF-8. */
  function Utf8Len(s: string): (n: nat)
    ensures n >= |s|
  {
    if s == "" then 0
    else
      var c := s[0] as int;
      (if c < 0x80 then 1 else if c < 0x800 then 2 else if c < 0x10000 then 3 else 4) + Utf8Len(s[1..])
  }

  lemma {:induction false} Utf8LenConcat(a: string, b: string)
    ensures Utf8Len(a + b) == Utf8Len(a) + Utf8Len(b)
  {
    if a == "" {
      assert a + b == b;
    } else {
      Utf8LenConcat(a[1..], b);
      assert (a + b)[1..] == a[1..] + b;
    }
  }
}
