/** Keys are Go strings compared byte by byte (cmp.Compare). */
module Keys {

  predicate Less(a: string, b: string)
    decreases |a|
  {
    if b == "" then false
    else if a == "" then true
    else if a[0] != b[0] then a[0] < b[0]
    else Less(a[1..], b[1..])
  }

  lemma {:induction false} LessIrreflexive(a: string)
    ensures !Less(a, a)
    decreases |a|
  {
    if a != "" {
      LessIrreflexive(a[1..]);
    }
  }

  lemma {:induction false} LessTransitive(a: string, b: string, c: string)
    requires Less(a, b) && Less(b, c)
    ensures Less(a, c)
    decreases |a|
  {
    if a != "" && a[0] == b[0] && b[0] == c[0] {
      LessTransitive(a[1..], b[1..], c[1..]);
    }
  }

  lemma {:induction false} LessTotal(a: string, b: string)
    ensures a == b || Less(a, b) || Less(b, a)
    decreases |a|
  {
    if a != "" && b != "" && a[0] == b[0] {
      LessTotal(a[1..], b[1..]);
      assert a == [a[0]] + a[1..] && b == [b[0]] + b[1..];
    }
  }

  lemma LessAsymmetric(a: string, b: string)
    requires Less(a, b)
    ensures !Less(b, a) && a != b
  {
    LessIrreflexive(a);
    if Less(b, a) {
      LessTransitive(a, b, a);
    }
  }

  /* ---- the front-end a key belongs to ---- */

  predicate TokenChar(c: char) {
    'a' <= c <= 'z' || 'A' <= c <= 'Z' || '0' <= c <= '9' || c == '-' || c == '_'
  }

  predicate Token(s: string) {
    0 < |s| <= 64 && forall i :: 0 <= i < |s| ==> TokenChar(s[i])
  }

  /** The part of the key before its first slash. */
  function FirstSegment(key: string): (r: string)
    ensures r <= key && '/' !in r
    ensures r != key ==> key[|r|] == '/'
  {
    if key == "" || key[0] == '/' then "" else [key[0]] + FirstSegment(key[1..])
  }

  /** A path component that is always safe: never empty, a dot or a slash. */
  function FrontendDir(key: string): (r: string)
    ensures Token(r)
  {
    var seg := FirstSegment(key);
    if Token(seg) then seg else "_"
  }

  lemma {:induction false} TokenIsItsDir(f: string)
    requires Token(f)
    ensures FrontendDir(f) == f
  {
    NoSlash(f);
  }

  lemma {:induction false} NoSlash(s: string)
    requires forall i :: 0 <= i < |s| ==> TokenChar(s[i])
    ensures FirstSegment(s) == s
  {
    if s != "" {
      NoSlash(s[1..]);
    }
  }

  /** The order is the dictionary's: a proper prefix comes first, otherwise the first difference decides. */
  lemma {:induction false} LessExact(a: string, b: string)
    ensures Less(a, b) <==>
              || (|a| < |b| && a <= b)
              || exists i :: 0 <= i < |a| && i < |b| && a[..i] == b[..i] && a[i] < b[i]
    decreases |a|
  {
    if a != "" && b != "" && a[0] == b[0] {
      var x, y := a[1..], b[1..];
      LessExact(x, y);
      if i :| 0 <= i < |x| && i < |y| && x[..i] == y[..i] && x[i] < y[i] {
        assert a[..i + 1] == [a[0]] + x[..i] && b[..i + 1] == [b[0]] + y[..i];
        assert a[i + 1] < b[i + 1];
      }
      if i :| 0 <= i < |a| && i < |b| && a[..i] == b[..i] && a[i] < b[i] {
        assert i > 0 && x[..i - 1] == a[..i][1..] && y[..i - 1] == b[..i][1..];
        assert x[i - 1] < y[i - 1];
      }
      assert a == [a[0]] + x && b == [b[0]] + y;
    } else if a != "" && b != "" {
      assert a[0] < b[0] ==> a[..0] == b[..0];
    }
  }

  /** Whatever follows the first slash, the segment before it names the front-end if it is a short
      token, and the underscore does if it is not. */
  lemma SegmentDecides(seg: string, rest: string)
    requires '/' !in seg
    ensures FrontendDir(seg + "/" + rest) == if Token(seg) then seg else "_"
    ensures FrontendDir(seg) == if Token(seg) then seg else "_"
  {
    SegmentOf(seg, "/" + rest);
    assert seg + "/" + rest == seg + ("/" + rest);
    SegmentOf(seg, "");
    assert seg + "" == seg;
  }

  lemma {:induction false} SegmentOf(seg: string, rest: string)
    requires '/' !in seg && (rest == "" || rest[0] == '/')
    ensures FirstSegment(seg + rest) == seg
  {
    if seg == "" {
      assert seg + rest == rest;
    } else {
      SegmentOf(seg[1..], rest);
      assert (seg + rest)[1..] == seg[1..] + rest;
    }
  }

  predicate AllPlain(s: string) {
    forall i :: 0 <= i < |s| ==> 'a' <= s[i] <= 'z' || '0' <= s[i] <= '9' || s[i] in "-_"
  }

  /** A front-end's name is a safe path component, and any short name of letters, digits, dashes and
      underscores is one. */
  lemma TokensAreSafe(s: string)
    ensures Token(s) ==> 1 <= |s| <= 64 && '/' !in s && '.' !in s && 0 as char !in s
    ensures 1 <= |s| <= 64 && AllPlain(s) ==> Token(s)
  {
  }
}
