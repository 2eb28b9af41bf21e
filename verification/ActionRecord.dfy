/** The Go build cache's action record and key layout (frontend/gobuild/gobuild.go). */
module ActionRecord {
  import opened Keys
  import opened Tiers
  import opened Int64

  const GIGA: int := 1_000_000_000

  /* ---- Go's integers and times ---- */

  /** Division and remainder that truncate toward zero. */
  function Quo(a: int, b: int): int
    requires b > 0
  {
    if a >= 0 then a / b else -((-a) / b)
  }

  function Rem(a: int, b: int): int
    requires b > 0
  {
    a - Quo(a, b) * b
  }

  /** An instant, normalised. */
  datatype Time = Time(sec: int, nsec: int)

  predicate Normal(t: Time) {
    0 <= t.nsec < GIGA
  }

  /** time.Unix. */
  function Unix(sec: int, nsec: int): Time {
    if 0 <= nsec < GIGA then Time(sec, nsec)
    else
      var n := Quo(nsec, GIGA);
      var rest := nsec - n * GIGA;
      if rest < 0 then Time(sec + n - 1, rest + GIGA) else Time(sec + n, rest)
  }

  function Nanos(t: Time): int {
    t.sec * GIGA + t.nsec
  }

  /** Time.UnixNano, which is an int64 whatever the year. */
  function UnixNano(t: Time): int {
    Wrap64(Nanos(t))
  }

  /** Truncated quotient and remainder recombine to the instant, before the epoch too. */
  lemma UnixSplits(ns: int)
    ensures Normal(Unix(Quo(ns, GIGA), Rem(ns, GIGA)))
    ensures Nanos(Unix(Quo(ns, GIGA), Rem(ns, GIGA))) == ns
  {
    var q, r := Quo(ns, GIGA), Rem(ns, GIGA);
    assert -GIGA < r < GIGA;
    assert q * GIGA + r == ns;
  }

  lemma NormalUnique(s: Time, t: Time)
    requires Normal(s) && Normal(t) && Nanos(s) == Nanos(t)
    ensures s == t
  {
  }

  /* ---- decimal ---- */

  predicate IsDigit(c: char) { '0' <= c <= '9' }

  predicate AllDigits(s: string) { forall i :: 0 <= i < |s| ==> IsDigit(s[i]) }

  function Digits(n: nat): (s: string)
    ensures s != "" && AllDigits(s)
  {
    var d := [((n % 10) + ('0' as int)) as char];
    if n < 10 then d else Digits(n / 10) + d
  }

  function Value(s: string): int
    requires AllDigits(s)
  {
    if s == "" then 0 else 10 * Value(s[..|s| - 1]) + ((s[|s| - 1] as int) - ('0' as int))
  }

  lemma {:induction false} DigitsValue(n: nat)
    ensures Value(Digits(n)) == n
  {
    var s := Digits(n);
    if n >= 10 {
      DigitsValue(n / 10);
      assert s[..|s| - 1] == Digits(n / 10);
    } else {
      assert s[..|s| - 1] == "";
    }
  }

  function FormatInt(n: int): string {
    if n < 0 then "-" + Digits(-n) else Digits(n)
  }

  /** strconv.ParseInt(s, 10, 64). */
  function ParseInt(s: string): Option<int> {
    var signed := s != "" && (s[0] == '-' || s[0] == '+');
    var d := if signed then s[1..] else s;
    if d == "" || !AllDigits(d) then None
    else
      var v := if signed && s[0] == '-' then -Value(d) else Value(d);
      if INT64_MIN <= v <= INT64_MAX then Some(v) else None
  }

  lemma ParseFormatInt(n: int)
    requires INT64_MIN <= n <= INT64_MAX
    ensures ParseInt(FormatInt(n)) == Some(n)
  {
    if n < 0 {
      DigitsValue(-n);
      assert FormatInt(n)[1..] == Digits(-n);
    } else {
      DigitsValue(n);
      assert IsDigit(Digits(n)[0]);
    }
  }

  /* ---- fields ---- */

  /** unicode.IsSpace. */
  predicate IsSpace(c: char) {
    c == ' ' || 9 as char <= c <= 13 as char
    || c as int in {0x85, 0xA0, 0x1680, 0x2028, 0x2029, 0x202f, 0x205f, 0x3000}
    || 0x2000 <= c as int <= 0x200a
  }

  predicate Spaceless(s: string) { forall i :: 0 <= i < |s| ==> !IsSpace(s[i]) }

  predicate Blank(s: string) { forall i :: 0 <= i < |s| ==> IsSpace(s[i]) }

  /** The leading run of characters that are not spaces. */
  function Word(s: string): (w: string)
    ensures w <= s && Spaceless(w)
    ensures |w| < |s| ==> IsSpace(s[|w|])
  {
    if s == "" || IsSpace(s[0]) then "" else [s[0]] + Word(s[1..])
  }

  function Fields(s: string): seq<string>
    decreases |s|
  {
    if s == "" then []
    else if IsSpace(s[0]) then Fields(s[1..])
    else [Word(s)] + Fields(s[|Word(s)|..])
  }

  lemma {:induction false} WordOf(a: string, rest: string)
    requires Spaceless(a) && (rest == "" || IsSpace(rest[0]))
    ensures Word(a + rest) == a
  {
    if a == "" {
      assert a + rest == rest;
    } else {
      WordOf(a[1..], rest);
      assert (a + rest)[1..] == a[1..] + rest;
    }
  }

  lemma {:induction false} FieldsBlank(s: string)
    requires Blank(s)
    ensures Fields(s) == []
  {
    if s != "" {
      FieldsBlank(s[1..]);
    }
  }

  lemma FieldsCons(a: string, rest: string)
    requires a != "" && Spaceless(a) && (rest == "" || IsSpace(rest[0]))
    ensures Fields(a + rest) == [a] + Fields(rest)
  {
    WordOf(a, rest);
    assert (a + rest)[|a|..] == rest;
  }

  /* ---- the record ---- */

  predicate ValidId(id: string) {
    2 <= |id| <= 128 && forall i :: 0 <= i < |id| ==> TokenChar(id[i])
  }

  datatype Action = Action(outputId: string, modTime: Time)

  function FormatAction(outputId: string, modTime: Time): string {
    outputId + " " + FormatInt(UnixNano(modTime))
  }

  function ParseAction(data: string): Option<Action> {
    var fields := Fields(data);
    if |fields| != 2 then None
    else match ParseInt(fields[1])
      case None => None
      case Some(ns) => Some(Action(fields[0], Unix(Quo(ns, GIGA), Rem(ns, GIGA))))
  }

  lemma SpacelessInt(n: int)
    ensures FormatInt(n) != "" && Spaceless(FormatInt(n))
  {
  }

  /** A record reads back as the id it names and the instant its nanoseconds name, with or
      without white space after it. */
  lemma ReadsBack(id: string, t: Time, tail: string)
    requires ValidId(id) && Blank(tail)
    ensures var ns := UnixNano(t);
            ParseAction(FormatAction(id, t) + tail) == Some(Action(id, Unix(Quo(ns, GIGA), Rem(ns, GIGA))))
  {
    hide Fields, ParseInt, FormatInt, Unix, Quo, Rem, IsSpace;
    var ns := UnixNano(t);
    var num := FormatInt(ns);
    SpacelessInt(ns);
    SpacelessId(id);
    ParseFormatInt(ns);
    TwoFields(id, num, tail);
  }

  lemma SpacelessId(id: string)
    requires ValidId(id)
    ensures id != "" && Spaceless(id)
  {
  }

  lemma TwoFields(a: string, b: string, tail: string)
    requires a != "" && b != "" && Spaceless(a) && Spaceless(b) && Blank(tail)
    ensures Fields(a + " " + b + tail) == [a, b]
  {
    hide Fields, Word, IsSpace, Spaceless;
    FieldsNext(a, b + tail);
    assert a + " " + b + tail == a + " " + (b + tail);
    FieldsCons(b, tail);
    FieldsBlank(tail);
  }

  /** Exactly the instants an int64 of nanoseconds can name survive the record. */
  lemma RoundTrip(id: string, t: Time)
    requires ValidId(id) && Normal(t)
    ensures ParseAction(FormatAction(id, t)) == Some(Action(id, t)) <==> INT64_MIN <= Nanos(t) <= INT64_MAX
  {
    ReadsBack(id, t, "");
    assert FormatAction(id, t) + "" == FormatAction(id, t);
    var ns := UnixNano(t);
    UnixSplits(ns);
    if INT64_MIN <= Nanos(t) <= INT64_MAX {
      NormalUnique(t, Unix(Quo(ns, GIGA), Rem(ns, GIGA)));
    }
  }

  /* ---- keys ---- */

  const PREFIX := "go/build"

  function Key(prefix: string, kind: string, id: string): string
    requires |id| >= 2
  {
    prefix + "/" + kind + "/" + id[..2] + "/" + id
  }

  lemma LongerHoldsSlash(a: string, b: string, x: string, y: string)
    requires a + "/" + x == b + "/" + y && |x| < |y|
    ensures '/' in y
  {
    assert (a + "/" + x)[|a|] == '/' && (b + "/" + y)[|a|] == y[|a| - |b| - 1];
  }

  /** What precedes the last slash and what follows it determine a string with one. */
  lemma LastSegment(a: string, b: string, x: string, y: string)
    requires '/' !in x && '/' !in y && a + "/" + x == b + "/" + y
    ensures a == b && x == y
  {
    var s := a + "/" + x;
    if |x| < |y| {
      LongerHoldsSlash(a, b, x, y);
    } else if |y| < |x| {
      LongerHoldsSlash(b, a, y, x);
    }
    assert a == s[..|a|] && b == s[..|b|];
    assert x == s[|a| + 1..] && y == s[|b| + 1..];
  }

  /** No two layouts, kinds or ids share a key. */
  lemma KeyInjective(p: string, kind: string, id: string, p': string, kind': string, id': string)
    requires ValidId(id) && ValidId(id') && '/' !in kind && '/' !in kind'
    ensures Key(p, kind, id) == Key(p', kind', id') <==> p == p' && kind == kind' && id == id'
  {
    if Key(p, kind, id) == Key(p', kind', id') {
      LastSegment(p + "/" + kind + "/" + id[..2], p' + "/" + kind' + "/" + id'[..2], id, id');
      LastSegment(p + "/" + kind, p' + "/" + kind', id[..2], id'[..2]);
      LastSegment(p, p', kind, kind');
    }
  }

  /** The layout the old tool reads, spelled out once. */
  lemma KeyExample()
    ensures Key("go/build", "action", "ab12cd") == "go/build/action/ab/ab12cd"
  {
    assert "ab12cd"[..2] == "ab";
  }

  /** And its record: the id, one space, the nanoseconds since the epoch in decimal, nothing else. */
  lemma RecordIs(id: string, t: Time)
    requires INT64_MIN <= t.sec * 1_000_000_000 + t.nsec <= INT64_MAX
    ensures FormatAction(id, t) == id + " " + FormatInt(t.sec * 1_000_000_000 + t.nsec)
  {
  }

  lemma RecordExample()
    ensures FormatAction("ab12", Time(0, 15)) == "ab12 15"
    ensures FormatAction("ab12", Time(-1, 999_999_998)) == "ab12 -2"
  {
    assert Digits(1) == "1" && Digits(15) == "15" && Digits(2) == "2";
  }

  /** Numbers an int64 cannot hold are refused, not wrapped. */
  lemma ParseRefusesWide(n: int)
    requires n < INT64_MIN || n > INT64_MAX
    ensures ParseInt(FormatInt(n)) == None
  {
    if n < 0 {
      DigitsValue(-n);
      assert FormatInt(n)[1..] == Digits(-n);
    } else {
      DigitsValue(n);
      assert IsDigit(Digits(n)[0]);
    }
  }

  /** A record of one field or of three is refused, whatever they are. */
  lemma FieldCountMatters(a: string, b: string, c: string)
    requires a != "" && b != "" && c != "" && Spaceless(a) && Spaceless(b) && Spaceless(c)
    ensures ParseAction(a) == None && ParseAction(a + " " + b + " " + c) == None && ParseAction("") == None
  {
    hide Fields, Word, IsSpace, Spaceless, ParseInt, Unix, Quo, Rem;
    FieldsOne(a);
    FieldsOne(c);
    FieldsNext(b, c);
    FieldsNext(a, b + " " + c);
    assert a + " " + b + " " + c == a + " " + (b + " " + c);
    FieldsBlank("");
  }

  lemma FieldsOne(a: string)
    requires a != "" && Spaceless(a)
    ensures Fields(a) == [a]
  {
    FieldsCons(a, "");
    assert a + "" == a;
  }

  lemma FieldsNext(a: string, rest: string)
    requires a != "" && Spaceless(a)
    ensures Fields(a + " " + rest) == [a] + Fields(rest)
  {
    hide Word, Spaceless;
    assert a + " " + rest == a + (" " + rest);
    FieldsCons(a, " " + rest);
    assert (" " + rest)[1..] == rest;
  }

  /** A valid id cannot reach into another part of a key, and every hash in hexadecimal is valid. */
  lemma ValidIds(id: string)
    ensures ValidId(id) ==> '/' !in id && '.' !in id && ' ' !in id && 0 as char !in id && |id| >= 2
    ensures 2 <= |id| <= 128 && (forall i :: 0 <= i < |id| ==> IsDigit(id[i]) || 'a' <= id[i] <= 'f') ==> ValidId(id)
  {
  }
}
