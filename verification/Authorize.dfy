/** authorize/allrepos.go and httpapi/typeresolver.go: the two read-only lookups in front of a request. */
module Authorize {
  import opened Text
  import opened Tables
  import Scope
  import Store

  // ---------------------------------------------------------------- the search scope

  class AllReposAuthorizer {
    const repos: Store.Store

    constructor (repos: Store.Store)
      ensures this.repos == repos
    {
      this.repos := repos;
    }

    method ListRepos() returns (list: seq<Repo>)
      ensures forall r :: r in list ==> exists l :: l in repos.db.repos && repos.db.repos[l] == r
      ensures forall l :: l in repos.db.repos ==> repos.db.repos[l] in list
    {
      var labels := Store.Listed(repos.db.repos.Keys);
      Store.ListsIff(labels, repos.db.repos.Keys);
      list := [];
      for i := 0 to |labels|
        invariant |list| == i
        invariant forall j :: 0 <= j < i ==> labels[j] in repos.db.repos && list[j] == repos.db.repos[labels[j]]
      {
        assert labels[i] in labels;
        list := list + [repos.db.repos[labels[i]]];
      }
      forall l | l in repos.db.repos ensures repos.db.repos[l] in list {
        assert l in labels;
        var j :| 0 <= j < |labels| && labels[j] == l;
        assert list[j] == repos.db.repos[l];
      }
    }

    /** Exactly the ids of the repos there are: none missing, none else. */
    method Allowed() returns (ids: array<int>)
      ensures fresh(ids) && Scope.ExactlyTheRepos(repos.db, ids[..])
    {
      var list := ListRepos();
      ids := new int[|list|];
      for i := 0 to |list|
        invariant forall j :: 0 <= j < i ==> ids[j] == list[j].id
      {
        ids[i] := list[i].id;
      }
      forall id | Owned(repos.db, id) ensures id in ids[..] {
        var l :| l in repos.db.repos && repos.db.repos[l].id == id;
        var j :| 0 <= j < |list| && list[j] == repos.db.repos[l];
        assert ids[..][j] == id;
      }
      forall id | id in ids[..] ensures Owned(repos.db, id) {
        var j :| 0 <= j < |list| && ids[j] == id;
        assert list[j] in list;
      }
    }
  }

  // ---------------------------------------------------------------- type names in URLs

  /** One doc_types row; aliases are None when the stored JSON does not decode. */
  datatype TypeRow = TypeRow(name: string, idPrefix: string, aliases: Option<seq<string>>)

  /** `fold` is strings.EqualFold. */
  predicate Answers(fold: (string, string) -> bool, t: TypeRow, input: string) {
    || t.name == input
    || fold(t.idPrefix, input)
    || (t.aliases.Some? && exists a :: a in t.aliases.value && fold(a, input))
  }

  function ResolveType(fold: (string, string) -> bool, types: seq<TypeRow>, input: string): Option<string> {
    if types == [] then None
    else if Answers(fold, types[0], input) then Some(types[0].name)
    else ResolveType(fold, types[1..], input)
  }

  /** The first row that answers wins, and there is an answer whenever some row does. */
  lemma {:induction false} ResolvesToFirst(fold: (string, string) -> bool, types: seq<TypeRow>, input: string)
    ensures ResolveType(fold, types, input).None? <==> forall t :: t in types ==> !Answers(fold, t, input)
    ensures forall i :: 0 <= i < |types| && Answers(fold, types[i], input) && (forall j :: 0 <= j < i ==> !Answers(fold, types[j], input))
              ==> ResolveType(fold, types, input) == Some(types[i].name)
  {
    if types != [] {
      ResolvesToFirst(fold, types[1..], input);
      assert forall t :: t in types <==> t == types[0] || t in types[1..];
      forall i | 0 <= i < |types| && Answers(fold, types[i], input) && (forall j :: 0 <= j < i ==> !Answers(fold, types[j], input))
        ensures ResolveType(fold, types, input) == Some(types[i].name)
      {
        if i > 0 {
          assert !Answers(fold, types[0], input);
          assert types[1..][i - 1] == types[i];
          assert forall j :: 0 <= j < i - 1 ==> types[1..][j] == types[j + 1];
        }
      }
    }
  }

  /** Some alias answers. */
  method AliasAnswers(fold: (string, string) -> bool, aliases: seq<string>, input: string) returns (found: bool)
    ensures found <==> exists a :: a in aliases && fold(a, input)
  {
    for i := 0 to |aliases|
      invariant forall a :: a in aliases[..i] ==> !fold(a, input)
    {
      if fold(aliases[i], input) {
        assert aliases[i] in aliases;
        return true;
      }
    }
    assert aliases[..|aliases|] == aliases;
    return false;
  }

  /** resolveType: the exact name, then the prefix, then the aliases, row by row; aliases that do not decode are
      passed over. */
  method FindType(fold: (string, string) -> bool, types: seq<TypeRow>, input: string) returns (r: Option<string>)
    ensures r == ResolveType(fold, types, input)
    ensures r.None? <==> forall t :: t in types ==>
              && t.name != input && !fold(t.idPrefix, input)
              && (t.aliases.Some? ==> forall a :: a in t.aliases.value ==> !fold(a, input))
    ensures r.Some? ==> exists t :: t in types && t.name == r.value
  {
    ResolvesToFirst(fold, types, input);
    for i := 0 to |types|
      invariant forall j :: 0 <= j < i ==> !Answers(fold, types[j], input)
    {
      var t := types[i];
      assert t in types;
      if t.name == input || fold(t.idPrefix, input) {
        assert Answers(fold, t, input);
        return Some(t.name);
      }
      if t.aliases.None? {
        continue;
      }
      var found := AliasAnswers(fold, t.aliases.value, input);
      if found {
        assert Answers(fold, t, input);
        return Some(t.name);
      }
    }
    assert forall t :: t in types ==> !Answers(fold, t, input);
    return None;
  }

  /** A type's own name reaches that type exactly when no earlier row answers to it: an earlier prefix or
      alias takes the name over. */
  lemma NameReachesItself(fold: (string, string) -> bool, types: seq<TypeRow>, i: nat)
    requires i < |types| && forall j, k :: 0 <= j < k < |types| ==> types[j].name != types[k].name
    ensures ResolveType(fold, types, types[i].name) == Some(types[i].name) <==>
            forall j :: 0 <= j < i ==> !Answers(fold, types[j], types[i].name)
  {
    var input := types[i].name;
    ResolvesToFirst(fold, types, input);
    if j :| 0 <= j < i && Answers(fold, types[j], input) {
      var k := FirstAnswer(fold, types, input, j);
      assert ResolveType(fold, types, input) == Some(types[k].name);
    }
  }

  function FirstAnswer(fold: (string, string) -> bool, types: seq<TypeRow>, input: string, i: nat): (k: nat)
    requires i < |types| && Answers(fold, types[i], input)
    ensures k <= i && Answers(fold, types[k], input) && forall j :: 0 <= j < k ==> !Answers(fold, types[j], input)
  {
    if Answers(fold, types[0], input) then 0
    else
      var k := 1 + FirstAnswer(fold, types[1..], input, i - 1);
      assert forall j :: 0 <= j < k - 1 ==> types[1..][j] == types[j + 1];
      k
  }
}
