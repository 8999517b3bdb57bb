/** search/search.go: the filter expression printed for a search, and its reading by a quoted-literal grammar. */
module SearchFilter {
  import opened Text

  /** A nil AllowedRepoIDs is None. */
  datatype SearchParams = SearchParams(
    allowed: Option<seq<int>>, repo: string, docType: string, status: string, author: string, source: string)

  datatype Clause = RepoIn(ids: seq<int>) | Eq(field: string, value: string)

  // ---------------------------------------------------------------- printing

  /** filterValue: backslashes doubled first, then quotes escaped. */
  function FilterValue(v: string): string {
    ReplaceAll(ReplaceAll(v, '\\', "\\\\"), '\"', "\\\"")
  }

  function EqText(field: string, value: string): string {
    field + " = \"" + FilterValue(value) + "\""
  }

  function AppendEq(parts: seq<string>, field: string, value: string): seq<string> {
    if value == "" then parts else parts + [EqText(field, value)]
  }

  function JoinSep(parts: seq<string>, sep: string): string {
    if parts == [] then ""
    else if |parts| == 1 then parts[0]
    else parts[0] + sep + JoinSep(parts[1..], sep)
  }

  function IdTexts(ids: seq<int>): seq<string> {
    seq(|ids|, i requires 0 <= i < |ids| => FormatInt(ids[i]))
  }

  function RepoInText(ids: seq<int>): string {
    "repo_id IN [" + JoinSep(IdTexts(ids), ", ") + "]"
  }

  function FacetParts(parts: seq<string>, p: SearchParams): seq<string> {
    AppendEq(AppendEq(AppendEq(AppendEq(AppendEq(parts, "repo", p.repo), "type", p.docType), "status", p.status),
                      "author", p.author), "source", p.source)
  }

  function FilterText(p: SearchParams): string {
    if p.allowed == Some([]) then "repo_id IN [-1]"
    else JoinSep(FacetParts(if p.allowed.Some? then [RepoInText(p.allowed.value)] else [], p), " AND ")
  }

  method BuildFilter(p: SearchParams) returns (r: string)
    ensures r == FilterText(p)
  {
    var parts: seq<string> := [];
    if p.allowed.Some? {
      if |p.allowed.value| == 0 {
        return "repo_id IN [-1]";
      }
      var ids: seq<string> := [];
      for i := 0 to |p.allowed.value|
        invariant ids == IdTexts(p.allowed.value[..i])
      {
        assert IdTexts(p.allowed.value[..i + 1]) == IdTexts(p.allowed.value[..i]) + [FormatInt(p.allowed.value[i])];
        ids := ids + [FormatInt(p.allowed.value[i])];
      }
      assert p.allowed.value[..|p.allowed.value|] == p.allowed.value;
      parts := ["repo_id IN [" + JoinSep(ids, ", ") + "]"];
    }
    assert parts == if p.allowed.Some? then [RepoInText(p.allowed.value)] else [];
    parts := AppendEq(parts, "repo", p.repo);
    parts := AppendEq(parts, "type", p.docType);
    parts := AppendEq(parts, "status", p.status);
    parts := AppendEq(parts, "author", p.author);
    parts := AppendEq(parts, "source", p.source);
    return JoinSep(parts, " AND ");
  }

  // ---------------------------------------------------------------- reading

  /** The text of a double-quoted literal up to its closing quote, a backslash taking the next character
      as it is, and what follows the quote. */
  function ReadLiteral(s: string): Option<(string, string)> {
    if s == "" then None
    else if s[0] == '\"' then Some(("", s[1..]))
    else if s[0] == '\\' then
      if |s| < 2 then None
      else
        var r := ReadLiteral(s[2..]);
        if r.None? then None else Some(([s[1]] + r.value.0, r.value.1))
    else
      var r := ReadLiteral(s[1..]);
      if r.None? then None else Some(([s[0]] + r.value.0, r.value.1))
  }

  predicate NumberChar(c: char) {
    c == '-' || IsDigit(c)
  }

  /** Length of the leading run of number characters. */
  function NumberLen(s: string): (n: nat)
    ensures n <= |s|
  {
    if s == "" || !NumberChar(s[0]) then 0 else 1 + NumberLen(s[1..])
  }

  function ReadInt(s: string): Option<int> {
    if s != "" && AllDigits(s) then Some(ParseNat(s))
    else if |s| > 1 && s[0] == '-' && AllDigits(s[1..]) then Some(0 - (ParseNat(s[1..]) as int))
    else None
  }

  /** A comma-separated list of integers up to the closing bracket. */
  function ReadInts(s: string): Option<(seq<int>, string)>
    decreases |s|
  {
    var n := NumberLen(s);
    var first := ReadInt(s[..n]);
    var rest := s[n..];
    if first.None? then None
    else if HasPrefix(rest, "]") then Some(([first.value], rest[1..]))
    else if HasPrefix(rest, ", ") then
      var more := ReadInts(rest[2..]);
      if more.None? then None else Some(([first.value] + more.value.0, more.value.1))
    else None
  }

  /** Length of the leading run without a space. */
  function WordLen(s: string): (n: nat)
    ensures n <= |s|
  {
    if s == "" || s[0] == ' ' then 0 else 1 + WordLen(s[1..])
  }

  function ReadClause(s: string): (r: Option<(Clause, string)>)
  {
    if HasPrefix(s, "repo_id IN [") then
      var ids := ReadInts(s[12..]);
      if ids.None? then None else Some((RepoIn(ids.value.0), ids.value.1))
    else
      var n := WordLen(s);
      if !HasPrefix(s[n..], " = \"") then None
      else
        var v := ReadLiteral(s[n + 4..]);
        if v.None? then None else Some((Eq(s[..n], v.value.0), v.value.1))
  }

  /** Clauses joined by " AND ", with fuel for the recursion: the number of characters is always enough. */
  function ReadClauses(s: string, fuel: nat): Option<seq<Clause>>
    decreases fuel
  {
    if fuel == 0 then None
    else
      var c := ReadClause(s);
      if c.None? then None
      else if c.value.1 == "" then Some([c.value.0])
      else if HasPrefix(c.value.1, " AND ") then
        var more := ReadClauses(c.value.1[5..], fuel - 1);
        if more.None? then None else Some([c.value.0] + more.value)
      else None
  }

  function ReadFilter(s: string): Option<seq<Clause>> {
    if s == "" then Some([]) else ReadClauses(s, |s|)
  }

  // ---------------------------------------------------------------- the round trip

  /** One pass: every backslash and every quote gets a backslash before it. */
  function Escape(v: string): string {
    if v == "" then ""
    else (if v[0] == '\\' then "\\\\" else if v[0] == '\"' then "\\\"" else [v[0]]) + Escape(v[1..])
  }

  /** The two sequential replacements are one single-pass escape: doubling first means the second pass never
      sees a backslash it added. */
  lemma {:induction false} SequentialIsSinglePass(v: string)
    ensures FilterValue(v) == Escape(v)
  {
    if v != "" {
      SequentialIsSinglePass(v[1..]);
      var head := if v[0] == '\\' then "\\\\" else [v[0]];
      ReplaceAllConcat(head, ReplaceAll(v[1..], '\\', "\\\\"), '\"', "\\\"");
      assert ReplaceAll(head, '\"', "\\\"") == if v[0] == '\\' then "\\\\" else if v[0] == '\"' then "\\\"" else [v[0]] by {
        if v[0] == '\\' {
          assert "\\\\"[1..] == "\\";
        } else {
          assert [v[0]][1..] == "";
        }
      }
    }
  }

  lemma {:induction false} ReadEscaped(v: string, rest: string)
    ensures ReadLiteral(Escape(v) + "\"" + rest) == Some((v, rest))
  {
    var s := Escape(v) + "\"" + rest;
    if v == "" {
      assert s == "\"" + rest && s[1..] == rest;
    } else {
      ReadEscaped(v[1..], rest);
      var tail := Escape(v[1..]) + "\"" + rest;
      if v[0] == '\\' || v[0] == '\"' {
        assert s == ['\\', v[0]] + tail;
        assert s[2..] == tail;
      } else {
        assert s == [v[0]] + tail;
        assert s[1..] == tail;
      }
      assert [v[0]] + v[1..] == v;
    }
  }

  lemma ReadDigits(t: string)
    requires t != "" && AllDigits(t)
    ensures ReadInt(t) == Some(ParseNat(t)) && ReadInt("-" + t) == Some(0 - (ParseNat(t) as int))
    ensures forall c :: c in t || c in "-" + t ==> NumberChar(c)
  {
    assert ("-" + t)[1..] == t;
    assert !AllDigits("-" + t) by {
      assert ("-" + t)[0] in "-" + t && !IsDigit('-');
    }
  }

  lemma ReadFormatInt(n: int)
    ensures ReadInt(FormatInt(n)) == Some(n)
    ensures forall c :: c in FormatInt(n) ==> NumberChar(c)
  {
    var m: nat := if n < 0 then -n else n;
    ParseFormatNat(m);
    ReadDigits(FormatNat(m));
  }

  lemma {:induction false} NumberRun(t: string, rest: string)
    requires forall c :: c in t ==> NumberChar(c)
    requires rest == "" || !NumberChar(rest[0])
    ensures NumberLen(t + rest) == |t|
  {
    if t == "" {
      assert t + rest == rest;
    } else {
      assert t[0] in t && forall c :: c in t[1..] ==> c in t;
      NumberRun(t[1..], rest);
      assert (t + rest)[1..] == t[1..] + rest;
    }
  }

  lemma ReadLastInt(n: int, rest: string)
    ensures ReadInts(FormatInt(n) + ("]" + rest)) == Some(([n], rest))
  {
    var t := FormatInt(n);
    var s := t + ("]" + rest);
    ReadFormatInt(n);
    NumberRun(t, "]" + rest);
    assert s[..|t|] == t && s[|t|..] == "]" + rest;
    assert ("]" + rest)[1..] == rest;
  }

  lemma ReadNextInt(n: int, tail: string)
    requires ReadInts(tail).Some?
    ensures ReadInts(FormatInt(n) + (", " + tail)) == Some(([n] + ReadInts(tail).value.0, ReadInts(tail).value.1))
  {
    var t := FormatInt(n);
    var s := t + (", " + tail);
    ReadFormatInt(n);
    NumberRun(t, ", " + tail);
    assert s[..|t|] == t && s[|t|..] == ", " + tail;
    assert (", " + tail)[2..] == tail;
  }

  lemma JoinHead(parts: seq<string>, sep: string, rest: string)
    requires |parts| > 1
    ensures JoinSep(parts, sep) + rest == parts[0] + (sep + (JoinSep(parts[1..], sep) + rest))
  {
  }

  /** The text reads as these integers and this rest. */
  predicate ReadsAsInts(s: string, ids: seq<int>, rest: string) {
    ReadInts(s) == Some((ids, rest))
  }

  lemma ReadsOneMore(n: int, tail: string, ids: seq<int>, rest: string)
    requires ReadsAsInts(tail, ids, rest)
    ensures ReadsAsInts(FormatInt(n) + (", " + tail), [n] + ids, rest)
  {
    ReadNextInt(n, tail);
  }

  lemma ReadsLast(n: int, rest: string)
    ensures ReadsAsInts(FormatInt(n) + ("]" + rest), [n], rest)
  {
    ReadLastInt(n, rest);
  }

  lemma IdTextsCons(ids: seq<int>)
    requires |ids| > 1
    ensures |IdTexts(ids)| > 1 && IdTexts(ids)[0] == FormatInt(ids[0]) && IdTexts(ids)[1..] == IdTexts(ids[1..])
  {
  }

  lemma {:induction false} JoinedIntsRead(ids: seq<int>, rest: string)
    requires ids != []
    ensures ReadsAsInts(JoinSep(IdTexts(ids), ", ") + ("]" + rest), ids, rest)
    decreases |ids|
  {
    if |ids| == 1 {
      ReadsLast(ids[0], rest);
      assert IdTexts(ids) == [FormatInt(ids[0])];
      assert ids == [ids[0]];
    } else {
      IdTextsCons(ids);
      JoinHead(IdTexts(ids), ", ", "]" + rest);
      JoinedIntsRead(ids[1..], rest);
      ReadsOneMore(ids[0], JoinSep(IdTexts(ids[1..]), ", ") + ("]" + rest), ids[1..], rest);
      assert ids == [ids[0]] + ids[1..];
    }
  }

  lemma ReadJoinedInts(ids: seq<int>, rest: string)
    requires ids != []
    ensures ReadInts(JoinSep(IdTexts(ids), ", ") + ("]" + rest)) == Some((ids, rest))
  {
    JoinedIntsRead(ids, rest);
  }

  lemma {:induction false} WordRun(t: string, rest: string)
    requires ' ' !in t && (rest == "" || rest[0] == ' ')
    ensures WordLen(t + rest) == |t|
  {
    if t == "" {
      assert t + rest == rest;
    } else {
      assert t[0] in t && forall c :: c in t[1..] ==> c in t;
      WordRun(t[1..], rest);
      assert (t + rest)[1..] == t[1..] + rest;
    }
  }

  function ClauseText(c: Clause): string {
    match c
    case RepoIn(ids) => RepoInText(ids)
    case Eq(field, value) => EqText(field, value)
  }

  predicate Printable(c: Clause) {
    match c
    case RepoIn(ids) => ids != []
    case Eq(field, _) => field != "" && ' ' !in field && field != "repo_id"
  }

  lemma ReadOneClause(c: Clause, rest: string)
    requires Printable(c)
    ensures ReadClause(ClauseText(c) + rest) == Some((c, rest))
  {
    match c
    case RepoIn(ids) =>
      var s := ClauseText(c) + rest;
      var tail := JoinSep(IdTexts(ids), ", ") + ("]" + rest);
      assert s == "repo_id IN [" + tail;
      assert s[12..] == tail;
      ReadJoinedInts(ids, rest);
    case Eq(field, value) =>
      ReadEqClause(field, value, rest);
  }

  lemma ReadEqClause(field: string, value: string, rest: string)
    requires field != "" && ' ' !in field && field != "repo_id"
    ensures ReadClause(EqText(field, value) + rest) == Some((Eq(field, value), rest))
  {
    var s := EqText(field, value) + rest;
    var after := " = \"" + FilterValue(value) + "\"" + rest;
    assert s == field + after;
    WordRun(field, after);
    NotRepoIn(field, after);
    assert s[..|field|] == field && s[|field|..] == after;
    var lit := FilterValue(value) + "\"" + rest;
    assert after == " = \"" + lit;
    assert s[|field| + 4..] == lit;
    SequentialIsSinglePass(value);
    ReadEscaped(value, rest);
  }

  lemma DifferAt(a: string, b: string) returns (i: nat)
    requires |a| == |b| && a != b
    ensures i < |a| && a[i] != b[i]
  {
    if a[0] != b[0] {
      i := 0;
    } else {
      assert a == [a[0]] + a[1..] && b == [b[0]] + b[1..];
      i := DifferAt(a[1..], b[1..]);
      i := i + 1;
    }
  }

  lemma NotRepoIn(field: string, after: string)
    requires ' ' !in field && field != "repo_id" && HasPrefix(after, " = \"")
    ensures !HasPrefix(field + after, "repo_id IN [")
  {
    var s := field + after;
    var p := "repo_id IN [";
    if |field| < 7 {
      assert s[|field|] == ' ' && p[|field|] != ' ';
    } else if |field| == 7 {
      assert p[..7] == "repo_id";
      var i := DifferAt(field, p[..7]);
      assert s[i] == field[i] != p[i];
    } else {
      assert s[7] == field[7] && field[7] in field && p[7] == ' ';
    }
  }

  function Texts(cs: seq<Clause>): seq<string>
    decreases |cs|
  {
    if cs == [] then [] else [ClauseText(cs[0])] + Texts(cs[1..])
  }

  lemma ReadLastClause(c: Clause, fuel: nat)
    requires Printable(c) && fuel >= 1
    ensures ReadClauses(ClauseText(c), fuel) == Some([c])
  {
    assert ClauseText(c) + "" == ClauseText(c);
    ReadOneClause(c, "");
  }

  lemma ReadNextClause(c: Clause, tail: string, fuel: nat)
    requires Printable(c) && fuel >= 1 && ReadClauses(tail, fuel - 1).Some?
    ensures ReadClauses(ClauseText(c) + (" AND " + tail), fuel) == Some([c] + ReadClauses(tail, fuel - 1).value)
  {
    ReadOneClause(c, " AND " + tail);
    assert (" AND " + tail)[5..] == tail;
  }

  lemma JoinedTail(cs: seq<Clause>)
    requires |cs| > 1
    ensures JoinSep(Texts(cs), " AND ") == ClauseText(cs[0]) + (" AND " + JoinSep(Texts(cs[1..]), " AND "))
  {
    assert Texts(cs)[1..] == Texts(cs[1..]);
  }

  predicate AllPrintable(cs: seq<Clause>) {
    forall i :: 0 <= i < |cs| ==> Printable(cs[i])
  }

  predicate ReadsAs(cs: seq<Clause>, fuel: nat) {
    ReadClauses(JoinSep(Texts(cs), " AND "), fuel) == Some(cs)
  }

  lemma PrintableTail(cs: seq<Clause>)
    requires |cs| > 1 && AllPrintable(cs)
    ensures AllPrintable(cs[1..])
  {
  }

  lemma ReadFirstOf(cs: seq<Clause>, fuel: nat)
    requires |cs| > 1 && fuel >= 1
    requires AllPrintable(cs)
    requires ReadsAs(cs[1..], fuel - 1)
    ensures ReadsAs(cs, fuel)
  {
    JoinedTail(cs);
    ReadNextClause(cs[0], JoinSep(Texts(cs[1..]), " AND "), fuel);
    assert cs == [cs[0]] + cs[1..];
  }

  lemma ReadOnlyOf(cs: seq<Clause>, fuel: nat)
    requires |cs| == 1 && fuel >= 1 && AllPrintable(cs)
    ensures ReadsAs(cs, fuel)
  {
    ReadLastClause(cs[0], fuel);
    assert Texts(cs) == [ClauseText(cs[0])];
    assert cs == [cs[0]];
  }

  lemma {:induction false} ReadJoinedClauses(cs: seq<Clause>, fuel: nat)
    requires |cs| >= 1 && fuel >= |cs| && AllPrintable(cs)
    ensures ReadsAs(cs, fuel)
    decreases |cs|
  {
    if |cs| == 1 {
      ReadOnlyOf(cs, fuel);
    } else {
      PrintableTail(cs);
      ReadJoinedClauses(cs[1..], fuel - 1);
      ReadFirstOf(cs, fuel);
    }
  }

  lemma {:induction false} JoinedLength(cs: seq<Clause>)
    ensures |JoinSep(Texts(cs), " AND ")| >= |cs|
    decreases |cs|
  {
    if cs != [] {
      assert |ClauseText(cs[0])| >= 1 by {
        match cs[0]
        case RepoIn(ids) => assert |RepoInText(ids)| >= 12;
        case Eq(f, v) => assert |EqText(f, v)| >= 5;
      }
      if |cs| > 1 {
        assert Texts(cs)[1..] == Texts(cs[1..]);
        JoinedLength(cs[1..]);
      }
    }
  }

  function FacetClause(field: string, value: string): seq<Clause> {
    if value == "" then [] else [Eq(field, value)]
  }

  function FacetClauses(p: SearchParams): seq<Clause> {
    FacetClause("repo", p.repo) + FacetClause("type", p.docType) + FacetClause("status", p.status)
    + FacetClause("author", p.author) + FacetClause("source", p.source)
  }

  /** What a search means: the repo scope first, then one equality per non-empty facet. An empty scope is the
      one id no repo has. */
  function ClausesOf(p: SearchParams): seq<Clause> {
    if p.allowed == Some([]) then [RepoIn([-1])]
    else (if p.allowed.Some? then [RepoIn(p.allowed.value)] else []) + FacetClauses(p)
  }

  lemma {:induction false} TextsConcat(a: seq<Clause>, b: seq<Clause>)
    ensures Texts(a + b) == Texts(a) + Texts(b)
    decreases |a|
  {
    if a == [] {
      assert a + b == b;
    } else {
      assert (a + b)[1..] == a[1..] + b;
      TextsConcat(a[1..], b);
    }
  }

  lemma AppendEqTexts(cs: seq<Clause>, field: string, value: string)
    ensures AppendEq(Texts(cs), field, value) == Texts(cs + FacetClause(field, value))
  {
    TextsConcat(cs, FacetClause(field, value));
    assert Texts([Eq(field, value)]) == [EqText(field, value)];
  }

  lemma FacetTexts(scope: seq<Clause>, p: SearchParams)
    ensures FacetParts(Texts(scope), p) == Texts(scope + FacetClauses(p))
  {
    var c1 := scope + FacetClause("repo", p.repo);
    var c2 := c1 + FacetClause("type", p.docType);
    var c3 := c2 + FacetClause("status", p.status);
    var c4 := c3 + FacetClause("author", p.author);
    AppendEqTexts(scope, "repo", p.repo);
    AppendEqTexts(c1, "type", p.docType);
    AppendEqTexts(c2, "status", p.status);
    AppendEqTexts(c3, "author", p.author);
    AppendEqTexts(c4, "source", p.source);
    assert c4 + FacetClause("source", p.source) == scope + FacetClauses(p);
  }

  lemma NoRepoText()
    ensures RepoInText([-1]) == "repo_id IN [-1]"
  {
    assert FormatNat(1) == "1" && FormatInt(-1) == "-1";
    assert IdTexts([-1]) == ["-1"];
  }

  lemma FilterTextIsClauses(p: SearchParams)
    ensures FilterText(p) == JoinSep(Texts(ClausesOf(p)), " AND ")
  {
    if p.allowed == Some([]) {
      NoRepoText();
      assert Texts([RepoIn([-1])]) == [RepoInText([-1])];
    } else {
      var scope: seq<Clause> := if p.allowed.Some? then [RepoIn(p.allowed.value)] else [];
      FacetTexts(scope, p);
      assert Texts(scope) == if p.allowed.Some? then [RepoInText(p.allowed.value)] else [];
    }
  }

  /** Reading the printed filter gives back exactly the repo ids and the field/value clauses, for every value:
      no quote, backslash or " AND " inside a value can end its literal or add a clause. */
  lemma FilterRoundTrips(p: SearchParams)
    ensures ReadFilter(FilterText(p)) == Some(ClausesOf(p))
  {
    var cs := ClausesOf(p);
    FilterTextIsClauses(p);
    JoinedLength(cs);
    ClausesPrintable(p);
    assert AllPrintable(cs);
    if cs != [] {
      ReadJoinedClauses(cs, |FilterText(p)|);
    }
  }

  lemma ClausesPrintable(p: SearchParams)
    ensures forall c :: c in ClausesOf(p) ==> Printable(c)
  {
    assert forall f :: f in {"repo", "type", "status", "author", "source"} ==> f != "" && ' ' !in f && f != "repo_id";
  }
}
