/** Go's string helpers, on `seq<char>`: the parts of `strings` and `strconv` the repository relies on. */
module Text {

  datatype Option<+T> = None | Some(value: T)

  datatype Result<+T> = Ok(value: T) | Err(error: string)

  /** A call to an outside service took effect and returned, was lost, or took effect but returned an error. */
  datatype Outcome = Done | Lost | Applied

  predicate HasPrefix(s: string, p: string) {
    p <= s
  }

  predicate HasSuffix(s: string, x: string) {
    |x| <= |s| && s[|s| - |x|..] == x
  }

  lemma HasSuffixTrans(p: string, a: string, b: string)
    requires HasSuffix(p, a) && HasSuffix(a, b)
    ensures HasSuffix(p, b)
  {
    assert p[|p| - |b|..] == p[|p| - |a|..][|a| - |b|..];
  }

  lemma HasSuffixTail(head: string, tail: string)
    ensures HasSuffix(head + tail, tail)
  {
  }

  function TrimPrefix(s: string, p: string): string {
    if HasPrefix(s, p) then s[|p|..] else s
  }

  function TrimSuffix(s: string, x: string): string {
    if HasSuffix(s, x) then s[..|s| - |x|] else s
  }

  /** `unicode.IsSpace`. */
  predicate IsSpace(c: char) {
    || '\t' <= c <= '\r'
    || c in " \U{85}\U{A0}\U{1680}\U{2028}\U{2029}\U{202F}\U{205F}\U{3000}"
    || '\U{2000}' <= c <= '\U{200A}'
  }

  function TrimLeft(s: string): string {
    if s != "" && IsSpace(s[0]) then TrimLeft(s[1..]) else s
  }

  function TrimRight(s: string): string {
    if s != "" && IsSpace(s[|s| - 1]) then TrimRight(s[..|s| - 1]) else s
  }

  function TrimSpace(s: string): string {
    TrimRight(TrimLeft(s))
  }

  predicate Blank(s: string) {
    forall c :: c in s ==> IsSpace(c)
  }

  /** t is s without its outer blanks. */
  ghost predicate Trims(s: string, t: string) {
    && (exists a, b :: s == a + t + b && Blank(a) && Blank(b))
    && (t != "" ==> !IsSpace(t[0]) && !IsSpace(t[|t| - 1]))
  }

  lemma {:induction false} TrimLeftIs(s: string) returns (a: string)
    ensures s == a + TrimLeft(s) && Blank(a)
    ensures TrimLeft(s) != "" ==> !IsSpace(TrimLeft(s)[0])
  {
    if s != "" && IsSpace(s[0]) {
      a := TrimLeftIs(s[1..]);
      assert s == ([s[0]] + a) + TrimLeft(s);
      a := [s[0]] + a;
    } else {
      a := "";
    }
  }

  lemma {:induction false} TrimRightIs(s: string) returns (b: string)
    ensures s == TrimRight(s) + b && Blank(b)
    ensures TrimRight(s) != "" ==> !IsSpace(TrimRight(s)[|TrimRight(s)| - 1])
  {
    if s != "" && IsSpace(s[|s| - 1]) {
      b := TrimRightIs(s[..|s| - 1]);
      assert s == TrimRight(s) + (b + [s[|s| - 1]]);
      b := b + [s[|s| - 1]];
    } else {
      b := "";
    }
  }

  lemma TrimSpaceIs(s: string)
    ensures Trims(s, TrimSpace(s))
  {
    var a := TrimLeftIs(s);
    var b := TrimRightIs(TrimLeft(s));
    assert s == a + TrimSpace(s) + b;
    if TrimSpace(s) != "" {
      assert TrimLeft(s)[0] == TrimSpace(s)[0];
    }
  }

  /** `strings.Split(s, "/")`. */
  function Split(s: string): (segs: seq<string>)
    ensures |segs| >= 1
    ensures forall seg :: seg in segs ==> '/' !in seg
  {
    if s == "" then [""]
    else
      var rest := Split(s[1..]);
      if s[0] == '/' then [""] + rest else [[s[0]] + rest[0]] + rest[1..]
  }

  /** `strings.Join(segs, "/")`. */
  function Join(segs: seq<string>): string {
    if segs == [] then ""
    else if |segs| == 1 then segs[0]
    else segs[0] + "/" + Join(segs[1..])
  }

  lemma JoinCons(c: char, segs: seq<string>)
    requires segs != []
    ensures Join([""] + segs) == "/" + Join(segs)
    ensures Join([[c] + segs[0]] + segs[1..]) == [c] + Join(segs)
  {
    assert ([""] + segs)[1..] == segs;
    assert ([[c] + segs[0]] + segs[1..])[1..] == segs[1..];
    assert [c] + (segs[0] + "/" + Join(segs[1..])) == [c] + segs[0] + "/" + Join(segs[1..]);
  }

  lemma {:induction false} JoinSplit(s: string)
    ensures Join(Split(s)) == s
  {
    if s != "" {
      JoinSplit(s[1..]);
      JoinCons(s[0], Split(s[1..]));
      assert s == [s[0]] + s[1..];
    }
  }

  lemma {:induction false} SplitSlash(a: string, b: string)
    ensures Split(a + "/" + b) == Split(a) + Split(b)
  {
    if a == "" {
      assert (a + "/" + b)[1..] == b;
    } else {
      assert (a + "/" + b)[1..] == a[1..] + "/" + b;
      SplitSlash(a[1..], b);
    }
  }

  lemma {:induction false} SplitSlashFree(s: string)
    requires '/' !in s
    ensures Split(s) == [s]
  {
    if s != "" {
      assert s[0] in s && forall c :: c in s[1..] ==> c in s;
      SplitSlashFree(s[1..]);
      assert [s[0]] + s[1..] == s;
    }
  }

  lemma {:induction false} JoinAppend(segs: seq<string>, last: string)
    requires segs != []
    ensures Join(segs + [last]) == Join(segs) + "/" + last
  {
    if |segs| > 1 {
      assert (segs + [last])[1..] == segs[1..] + [last];
      JoinAppend(segs[1..], last);
    } else {
      assert (segs + [last])[1..] == [last];
    }
  }

  /** `strings.ReplaceAll(s, target, new)` for a one-character `target`. */
  function ReplaceAll(s: string, target: char, with: string): string {
    if s == "" then ""
    else (if s[0] == target then with else [s[0]]) + ReplaceAll(s[1..], target, with)
  }

  lemma {:induction false} ReplaceAllConcat(a: string, b: string, target: char, with: string)
    ensures ReplaceAll(a + b, target, with) == ReplaceAll(a, target, with) + ReplaceAll(b, target, with)
  {
    if a == "" {
      assert a + b == b;
    } else {
      assert (a + b)[1..] == a[1..] + b;
      ReplaceAllConcat(a[1..], b, target, with);
    }
  }

  const DIGITS := "0123456789"

  predicate IsDigit(c: char) {
    '0' <= c <= '9'
  }

  predicate AllDigits(s: string) {
    forall c :: c in s ==> IsDigit(c)
  }

  /** `strconv.FormatInt(n, 10)`; the second argument of the Go call is always 10 here. */
  function FormatNat(n: nat): (s: string)
    ensures s != "" && AllDigits(s)
  {
    (if n < 10 then "" else FormatNat(n / 10)) + [DIGITS[n % 10]]
  }

  function FormatInt(n: int): string {
    if n < 0 then "-" + FormatNat(-n) else FormatNat(n)
  }

  function DigitValue(c: char): nat
    requires IsDigit(c)
  {
    c as int - '0' as int
  }

  function ParseNat(s: string): nat
    requires AllDigits(s)
  {
    if s == "" then 0
    else ParseNat(s[..|s| - 1]) * 10 + DigitValue(s[|s| - 1])
  }

  lemma {:induction false} ParseFormatNat(n: nat)
    ensures ParseNat(FormatNat(n)) == n
  {
    var s := FormatNat(n);
    assert DigitValue(DIGITS[n % 10]) == n % 10;
    if n < 10 {
      assert s[..|s| - 1] == "";
    } else {
      ParseFormatNat(n / 10);
      assert s[..|s| - 1] == FormatNat(n / 10);
    }
  }

  lemma FormatNatFirst(n: nat)
    ensures IsDigit(FormatNat(n)[0])
  {
    assert FormatNat(n)[0] in FormatNat(n);
  }

  lemma FormatIntInjective(a: int, b: int)
    requires FormatInt(a) == FormatInt(b)
    ensures a == b
  {
    var m, n := if a < 0 then -a else a, if b < 0 then -b else b;
    FormatNatFirst(m);
    FormatNatFirst(n);
    ParseFormatNat(m);
    ParseFormatNat(n);
    assert a < 0 ==> FormatInt(a)[0] == '-' && FormatInt(a)[1..] == FormatNat(m);
    assert b < 0 ==> FormatInt(b)[0] == '-' && FormatInt(b)[1..] == FormatNat(n);
  }
}
