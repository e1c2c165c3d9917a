/**
 * The domain service: a repository of domains with one domain per name,
 * lookups that fail with a not-found error, and the upsert that returns
 * the stored domain of a name or creates it.
 */
module DomainService {
  import opened Wrappers

  /** A domain: its id (set once stored), its name and its colour. */
  datatype Domain = Domain(id: Option<string>, name: string, color: Option<string>)

  /** `ElementNotFoundException` with its message. */
  datatype NotFound = ElementNotFound(message: string)

  const DomainIdNotFoundMsg := "Domain not found with id"
  const DomainNameNotFoundMsg := "Domain not found with name"

  /** The repository is keyed by name: every stored domain sits under its own name. */
  ghost predicate NameKeyed(repo: map<string, Domain>) {
    forall n :: n in repo ==> repo[n].name == n
  }

  /**
   * The stored domain and the new repository after upserting `name`: the
   * stored domain of that name when there is one, otherwise a new domain
   * with the id the repository assigns (`newId`) and the given colour, or
   * `generatedColor` when none is given.
   */
  function Upserted(repo: map<string, Domain>, name: string, color: Option<string>, generatedColor: string, newId: string)
    : (Domain, map<string, Domain>)
  {
    if name in repo then (repo[name], repo)
    else
      var d := Domain(Some(newId), name, Some(if color.Some? then color.value else generatedColor));
      (d, repo[name := d])
  }

  class DomainService {
    /** The domain repository, by name. */
    var repository: map<string, Domain>

    ghost predicate Valid()
      reads this
    {
      NameKeyed(repository)
    }

    constructor (initial: map<string, Domain>)
      requires NameKeyed(initial)
      ensures Valid() && repository == initial
    {
      repository := initial;
    }

    /** `findByName`: the domain of that name, or the not-found error; never an empty answer. */
    method FindByName(name: string) returns (r: Result<Domain, NotFound>)
      requires Valid()
      ensures r.Ok? <==> name in repository
      ensures r.Ok? ==> r.value == repository[name] && r.value.name == name
      ensures r.Err? ==> r.error == ElementNotFound(DomainNameNotFoundMsg + ": " + name)
    {
      if name in repository {
        r := Ok(repository[name]);
      } else {
        r := Err(ElementNotFound(DomainNameNotFoundMsg + ": " + name));
      }
    }

    /** `findById`: a stored domain with that id, or the not-found error when there is none. */
    method FindById(domainId: string) returns (r: Result<Domain, NotFound>)
      ensures r.Ok? <==> exists n :: n in repository && repository[n].id == Some(domainId)
      ensures r.Ok? ==> r.value in repository.Values && r.value.id == Some(domainId)
      ensures r.Err? ==> r.error == ElementNotFound(DomainIdNotFoundMsg + ": " + domainId)
    {
      if n :| n in repository && repository[n].id == Some(domainId) {
        r := Ok(repository[n]);
      } else {
        r := Err(ElementNotFound(DomainIdNotFoundMsg + ": " + domainId));
      }
    }

    /**
     * `upsert(name, color)`: the stored domain of that name, or a new one
     * saved with the id the repository assigns and the given or generated
     * colour.
     */
    method Upsert(name: string, color: Option<string>, generatedColor: string, newId: string) returns (d: Domain)
      requires Valid()
      modifies this
      ensures Valid()
      ensures (d, repository) == Upserted(old(repository), name, color, generatedColor, newId)
    {
      if name in repository {
        d := repository[name];
      } else {
        d := Domain(Some(newId), name, Some(if color.Some? then color.value else generatedColor));
        repository := repository[name := d];
      }
    }

    /** `upsert(domain)`: the upsert of its name and colour. */
    method UpsertDomain(domainToUpsert: Domain, generatedColor: string, newId: string) returns (d: Domain)
      requires Valid()
      modifies this
      ensures Valid()
      ensures (d, repository) == Upserted(old(repository), domainToUpsert.name, domainToUpsert.color, generatedColor, newId)
    {
      d := Upsert(domainToUpsert.name, domainToUpsert.color, generatedColor, newId);
    }

    /**
     * `upserts`: every domain upserted in turn, the i-th with the i-th
     * generated colour and assigned id; the result holds the stored domain
     * of every name.
     */
    method Upserts(domains: seq<Domain>, generatedColors: seq<string>, newIds: seq<string>) returns (result: set<Domain>)
      requires Valid()
      requires |generatedColors| == |domains| && |newIds| == |domains|
      modifies this
      ensures Valid()
      ensures repository.Keys == old(repository).Keys + NamesOf(domains)
      ensures forall n :: n in old(repository) ==> repository[n] == old(repository)[n]
      ensures result == set n | n in NamesOf(domains) :: repository[n]
      ensures (set d | d in result :: d.name) == NamesOf(domains)
      ensures repository == UpsertedAll(old(repository), domains, generatedColors, newIds)
    {
      result := {};
      for i := 0 to |domains|
        invariant Valid()
        invariant repository == UpsertedAll(old(repository), domains[..i], generatedColors[..i], newIds[..i])
        invariant NamesOf(domains[..i]) <= repository.Keys
        invariant result == set n | n in NamesOf(domains[..i]) :: repository[n]
      {
        ghost var before := repository;
        UpsertedAllKeeps(old(repository), domains[..i], generatedColors[..i], newIds[..i]);
        var d := UpsertDomain(domains[i], generatedColors[i], newIds[i]);
        UpsertKeepsNameKeyed(before, domains[i].name, domains[i].color, generatedColors[i], newIds[i]);
        StoredStep(NamesOf(domains[..i]), domains[i].name, before, repository, d);
        NamesOfSnoc(domains[..i], domains[i]);
        UpsertedAllSnoc(old(repository), domains, generatedColors, newIds, i);
        assert domains[..i + 1] == domains[..i] + [domains[i]];
        result := result + {d};
      }
      assert domains[..|domains|] == domains;
      assert generatedColors[..|domains|] == generatedColors && newIds[..|domains|] == newIds;
      UpsertedAllKeeps(old(repository), domains, generatedColors, newIds);
    }
  }

  /**
   * The repository after upserting `domains` in turn, the i-th with the
   * i-th generated colour and assigned id.
   */
  function UpsertedAll(repo: map<string, Domain>, domains: seq<Domain>, generatedColors: seq<string>, newIds: seq<string>)
    : map<string, Domain>
    requires |generatedColors| == |domains| && |newIds| == |domains|
    decreases |domains|
  {
    if |domains| == 0 then repo
    else
      var k := |domains| - 1;
      var before := UpsertedAll(repo, domains[..k], generatedColors[..k], newIds[..k]);
      Upserted(before, domains[k].name, domains[k].color, generatedColors[k], newIds[k]).1
  }

  /** The names of some domains. */
  function NamesOf(ds: seq<Domain>): (r: set<string>)
    ensures forall n :: n in r <==> exists i :: 0 <= i < |ds| && ds[i].name == n
  {
    set i | 0 <= i < |ds| :: ds[i].name
  }

  lemma {:induction false} NamesOfSnoc(ds: seq<Domain>, d: Domain)
    ensures NamesOf(ds + [d]) == NamesOf(ds) + {d.name}
  {
    assert (ds + [d])[|ds|] == d;
    forall n | n in NamesOf(ds)
      ensures n in NamesOf(ds + [d])
    {
      var i :| 0 <= i < |ds| && ds[i].name == n;
      assert (ds + [d])[i] == ds[i];
    }
  }

  /** The stored domains of some names, and of one more, after an upsert that kept every earlier entry. */
  lemma {:induction false} StoredStep(names: set<string>, name: string, before: map<string, Domain>, after: map<string, Domain>, d: Domain)
    requires names <= before.Keys && name in after && after[name] == d
    requires forall n :: n in before ==> n in after && after[n] == before[n]
    ensures (set n | n in names :: before[n]) + {d} == set n | n in names + {name} :: after[n]
  {
  }

  // ---------------------------------------------------------------- properties

  /** Upserting a stored name returns the stored domain; the colour given is ignored and nothing changes. */
  lemma {:induction false} UpsertExisting(repo: map<string, Domain>, name: string, color: Option<string>, generatedColor: string, newId: string)
    requires name in repo
    ensures Upserted(repo, name, color, generatedColor, newId) == (repo[name], repo)
  {
  }

  /**
   * Upserting a new name adds exactly one domain, with that name and the
   * given colour, or the generated one when none is given.
   */
  lemma {:induction false} UpsertNew(repo: map<string, Domain>, name: string, color: Option<string>, generatedColor: string, newId: string)
    requires name !in repo
    ensures var (d, after) := Upserted(repo, name, color, generatedColor, newId);
      after.Keys == repo.Keys + {name} && after[name] == d && d.name == name && d.id == Some(newId)
      && (color.Some? ==> d.color == color) && (color.None? ==> d.color == Some(generatedColor))
  {
  }

  /** Upserting keeps the repository keyed by name, and the result is stored under its name. */
  lemma {:induction false} UpsertKeepsNameKeyed(repo: map<string, Domain>, name: string, color: Option<string>, generatedColor: string, newId: string)
    requires NameKeyed(repo)
    ensures NameKeyed(Upserted(repo, name, color, generatedColor, newId).1)
    ensures var (d, after) := Upserted(repo, name, color, generatedColor, newId);
      name in after && after[name] == d && d.name == name
  {
  }

  /** Upserting the same name twice is upserting it once, whatever the second colour and id. */
  lemma {:induction false} UpsertIdempotent(repo: map<string, Domain>, name: string, color: Option<string>, generatedColor: string, newId: string,
                         color2: Option<string>, generatedColor2: string, newId2: string)
    ensures var (d, after) := Upserted(repo, name, color, generatedColor, newId);
      Upserted(after, name, color2, generatedColor2, newId2) == (d, after)
  {
  }

  /** Domains of other names are untouched. */
  lemma {:induction false} UpsertOthersUntouched(repo: map<string, Domain>, name: string, color: Option<string>, generatedColor: string, newId: string, other: string)
    requires other != name
    ensures var after := Upserted(repo, name, color, generatedColor, newId).1;
      (other in after <==> other in repo) && (other in repo ==> after[other] == repo[other])
  {
  }

  /** Upserting one more domain of the sequence is one more `Upserted` step. */
  lemma {:induction false} UpsertedAllSnoc(repo: map<string, Domain>, domains: seq<Domain>, generatedColors: seq<string>, newIds: seq<string>, i: int)
    requires |generatedColors| == |domains| && |newIds| == |domains| && 0 <= i < |domains|
    ensures UpsertedAll(repo, domains[..i + 1], generatedColors[..i + 1], newIds[..i + 1])
      == Upserted(UpsertedAll(repo, domains[..i], generatedColors[..i], newIds[..i]),
                  domains[i].name, domains[i].color, generatedColors[i], newIds[i]).1
  {
    assert domains[..i + 1][..i] == domains[..i];
    assert generatedColors[..i + 1][..i] == generatedColors[..i];
    assert newIds[..i + 1][..i] == newIds[..i];
  }

  /** Upserting a sequence adds exactly its names and keeps every entry already stored. */
  lemma {:induction false} UpsertedAllKeeps(repo: map<string, Domain>, domains: seq<Domain>, generatedColors: seq<string>, newIds: seq<string>)
    requires |generatedColors| == |domains| && |newIds| == |domains|
    ensures UpsertedAll(repo, domains, generatedColors, newIds).Keys == repo.Keys + NamesOf(domains)
    ensures forall n :: n in repo ==> UpsertedAll(repo, domains, generatedColors, newIds)[n] == repo[n]
    decreases |domains|
  {
    if |domains| > 0 {
      var k := |domains| - 1;
      UpsertedAllKeeps(repo, domains[..k], generatedColors[..k], newIds[..k]);
      assert domains == domains[..k] + [domains[k]];
      NamesOfSnoc(domains[..k], domains[k]);
    }
  }

  /**
   * A name new to the repository ends up holding the first domain upserted
   * under it, with the id assigned then and that domain's colour, or the
   * colour generated then; later domains of the same name change nothing.
   */
  lemma {:induction false} UpsertsFirstWins(repo: map<string, Domain>, domains: seq<Domain>, generatedColors: seq<string>, newIds: seq<string>, i: int)
    requires |generatedColors| == |domains| && |newIds| == |domains|
    requires 0 <= i < |domains| && domains[i].name !in repo
    requires forall j :: 0 <= j < i ==> domains[j].name != domains[i].name
    ensures var after := UpsertedAll(repo, domains, generatedColors, newIds);
      domains[i].name in after
      && after[domains[i].name] == Domain(Some(newIds[i]), domains[i].name,
           Some(if domains[i].color.Some? then domains[i].color.value else generatedColors[i]))
    decreases |domains|
  {
    var k := |domains| - 1;
    var before := UpsertedAll(repo, domains[..k], generatedColors[..k], newIds[..k]);
    if i == k {
      UpsertedAllKeeps(repo, domains[..k], generatedColors[..k], newIds[..k]);
      assert domains[i].name !in NamesOf(domains[..k]);
    } else {
      UpsertsFirstWins(repo, domains[..k], generatedColors[..k], newIds[..k], i);
    }
  }
}
