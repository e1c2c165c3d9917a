/**
 * The full output of an injector contract: the constructor's defaulting of
 * absent values, the conversion from a stored contract, and the choice of
 * the domains the contract is shown under.
 */
module InjectorContractOutput {
  import opened Wrappers
  import opened Grouping

  /** The payload of a contract, as far as the output reads it; the execution architecture by its enum name. */
  datatype Payload = Payload(kind: Option<string>, domainIds: seq<Option<string>>, executionArch: Option<string>)

  datatype Injector = Injector(name: Option<string>, kind: Option<string>)

  /** A stored injector contract, with its attack patterns and domains given by their ids. */
  datatype InjectorContract = InjectorContract(
    id: string,
    externalId: Option<string>,
    labels: map<string, string>,
    content: Option<string>,
    platforms: Option<seq<string>>,
    payload: Option<Payload>,
    injector: Injector,
    attackPatternIds: seq<Option<string>>,
    domainIds: seq<Option<string>>,
    updatedAt: int)

  /** `InjectorContractFullOutput`. */
  datatype FullOutput = FullOutput(
    id: string,
    externalId: Option<string>,
    updatedAt: int,
    labels: map<string, string>,
    content: Option<string>,
    platforms: Option<seq<string>>,
    payloadType: Option<string>,
    injectorName: Option<string>,
    injectorType: Option<string>,
    attackPatterns: seq<Option<string>>,
    domains: seq<Option<string>>,
    arch: Option<string>,
    hasFullDetails: bool)

  /** `Optional.ofNullable(x).orElse(y)`. */
  function OrElse<T>(x: Option<T>, y: Option<T>): (r: Option<T>)
    ensures x.Some? ==> r == x
    ensures x.None? ==> r == y
  {
    if x.Some? then x else y
  }

  /** A copy of a list, or an empty list for `null`. */
  function ListOrEmpty<T>(xs: Option<seq<T>>): (r: seq<T>)
    ensures xs.None? ==> r == []
    ensures xs.Some? ==> r == xs.value
  {
    if xs.Some? then xs.value else []
  }

  /**
   * The constructor: the collector type, when given, stands for the payload
   * type; absent attack-pattern and domain lists become empty; the output
   * always has its full details.
   */
  function NewFullOutput(
    id: string, externalId: Option<string>, labels: map<string, string>, content: Option<string>,
    platforms: Option<seq<string>>, payloadType: Option<string>, injectorName: Option<string>,
    collectorType: Option<string>, injectorType: Option<string>, attackPatterns: Option<seq<Option<string>>>,
    domains: Option<seq<Option<string>>>, updatedAt: int, arch: Option<string>): (r: FullOutput)
    ensures collectorType.Some? ==> r.payloadType == collectorType
    ensures collectorType.None? ==> r.payloadType == payloadType
    ensures attackPatterns.None? ==> r.attackPatterns == []
    ensures domains.None? ==> r.domains == []
    ensures r.hasFullDetails
  {
    FullOutput(id, externalId, updatedAt, labels, content, platforms, OrElse(collectorType, payloadType),
               injectorName, injectorType, ListOrEmpty(attackPatterns), ListOrEmpty(domains), arch, true)
  }

  /** The present values of a list, in order. */
  function NonNull<T(!new)>(xs: seq<Option<T>>): (r: seq<T>)
    ensures forall x :: x in r <==> Some(x) in xs
    ensures |r| <= |xs|
    decreases |xs|
  {
    if |xs| == 0 then []
    else
      var init := xs[..|xs| - 1];
      assert xs == init + [xs[|xs| - 1]];
      NonNull(init) + (if xs[|xs| - 1].Some? then [xs[|xs| - 1].value] else [])
  }

  /** `.filter(Objects::nonNull).distinct()`: the present values, each once, in the order of first occurrence. */
  function PresentDistinct(xs: seq<Option<string>>): (r: seq<string>)
    ensures forall x :: x in r <==> Some(x) in xs
    ensures NoDuplicates(r)
  {
    Distinct(NonNull(xs))
  }

  /**
   * `resolveEffectiveDomains`: the payload's domains when there are any,
   * else the contract's own, without nulls and duplicates; none when the
   * list chosen is absent.
   */
  function ResolveEffectiveDomains(injectorDomains: Option<seq<Option<string>>>, payloadDomains: Option<seq<Option<string>>>)
    : (r: seq<string>)
    ensures NoDuplicates(r)
    ensures payloadDomains.Some? && |payloadDomains.value| > 0 ==> forall x :: x in r <==> Some(x) in payloadDomains.value
    ensures !(payloadDomains.Some? && |payloadDomains.value| > 0) && injectorDomains.None? ==> r == []
    ensures !(payloadDomains.Some? && |payloadDomains.value| > 0) && injectorDomains.Some? ==>
      forall x :: x in r <==> Some(x) in injectorDomains.value
  {
    var effectiveDomains := if payloadDomains.Some? && |payloadDomains.value| > 0 then payloadDomains else injectorDomains;
    if effectiveDomains.None? then [] else PresentDistinct(effectiveDomains.value)
  }

  /** `fromInjectorContract`. */
  function FromInjectorContract(c: InjectorContract): (r: FullOutput)
    ensures r.hasFullDetails
    ensures c.payload.None? ==> r.payloadType.None? && r.arch.None?
    ensures c.payload.Some? ==> r.payloadType == c.payload.value.kind && r.arch == c.payload.value.executionArch
    ensures r.attackPatterns == c.attackPatternIds
    ensures NoDuplicates(r.domains) && forall d :: d in r.domains ==> d.Some?
  {
    var payloadDomains := if c.payload.Some? then c.payload.value.domainIds else [];
    NewFullOutput(
      c.id, c.externalId, c.labels, c.content, c.platforms,
      if c.payload.None? then None else c.payload.value.kind,
      c.injector.name, None, c.injector.kind, Some(c.attackPatternIds),
      Some(Wrapped(ResolveEffectiveDomains(Some(c.domainIds), Some(payloadDomains)))),
      c.updatedAt,
      if c.payload.None? then None else c.payload.value.executionArch)
  }

  /** Ids back in a list of possibly absent ids. */
  function Wrapped(ids: seq<string>): (r: seq<Option<string>>)
    ensures |r| == |ids| && forall i :: 0 <= i < |ids| ==> r[i] == Some(ids[i])
  {
    seq(|ids|, i requires 0 <= i < |ids| => Some(ids[i]))
  }

  // ---------------------------------------------------------------- properties

  /** `NonNull` keeps the order of the present values. */
  lemma {:induction false} NonNullOrder<T(!new)>(xs: seq<Option<T>>, x: T, y: T)
    requires Some(x) in xs && Some(y) in xs
    requires FirstIndex(xs, Some(x)) < FirstIndex(xs, Some(y))
    ensures FirstIndex(NonNull(xs), x) < FirstIndex(NonNull(xs), y)
    decreases |xs|
  {
    var init, last := xs[..|xs| - 1], xs[|xs| - 1];
    assert xs == init + [last];
    var fy := FirstIndex(xs, Some(y));
    var fx := FirstIndex(xs, Some(x));
    if fy < |init| {
      assert init[fx] == Some(x) && init[fy] == Some(y);
      FirstIndexSnoc(init, last, Some(x));
      FirstIndexSnoc(init, last, Some(y));
      NonNullOrder(init, x, y);
      FirstIndexSnoc(NonNull(init), if last.Some? then last.value else x, x);
      FirstIndexSnoc(NonNull(init), if last.Some? then last.value else y, y);
      assert NonNull(xs) == NonNull(init) + (if last.Some? then [last.value] else []);
      if last.None? {
        assert NonNull(xs) == NonNull(init);
      }
    } else {
      assert last == Some(y);
      assert init[fx] == Some(x);
      assert Some(y) !in init by {
        forall j | 0 <= j < |init|
          ensures init[j] != Some(y)
        {
          assert xs[j] == init[j];
        }
      }
      assert y !in NonNull(init);
      assert x in NonNull(init);
      FirstIndexSnoc(NonNull(init), y, x);
      assert NonNull(xs) == NonNull(init) + [y];
      assert FirstIndex(NonNull(xs), y) == |NonNull(init)|;
    }
  }

  /** The resolved domains keep the order in which ids first occur in the list chosen. */
  lemma {:induction false} PresentDistinctOrder(xs: seq<Option<string>>, i: int, j: int)
    requires 0 <= i < j < |PresentDistinct(xs)|
    ensures FirstIndex(xs, Some(PresentDistinct(xs)[i])) < FirstIndex(xs, Some(PresentDistinct(xs)[j]))
  {
    var r := PresentDistinct(xs);
    var x, y := r[i], r[j];
    DistinctOrder(NonNull(xs));
    var fx, fy := FirstIndex(xs, Some(x)), FirstIndex(xs, Some(y));
    if fy < fx {
      NonNullOrder(xs, y, x);
    }
  }

  /** A contract without payload domains, or without a payload, shows its own domains. */
  lemma {:induction false} OwnDomainsWithoutPayloadDomains(c: InjectorContract)
    requires c.payload.None? || |c.payload.value.domainIds| == 0
    ensures forall d :: d in FromInjectorContract(c).domains <==> d.Some? && d in c.domainIds
  {
  }

  /** A contract whose payload lists domains shows exactly the payload's. */
  lemma {:induction false} PayloadDomainsWin(c: InjectorContract)
    requires c.payload.Some? && |c.payload.value.domainIds| > 0
    ensures forall d :: d in FromInjectorContract(c).domains <==> d.Some? && d in c.payload.value.domainIds
  {
  }
}
