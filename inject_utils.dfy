/**
 * Inject helpers of the back end: the payload an inject runs, its primary
 * expectations, and the empty-row test of spreadsheet imports.
 */
module InjectUtils {
  import opened Wrappers
  import opened Text

  // ---------------------------------------------------------------- payload of an inject

  /** The payload kinds that carry a payload description, and every other type value. */
  datatype PayloadKind = Command | Executable | FileDrop | DnsResolution | NetworkTraffic | OtherKind(name: string)

  /** A stored payload, with the fields of every kind (absent where a kind has none). */
  datatype Payload = Payload(
    kind: Option<PayloadKind>,
    name: Option<string>,
    description: Option<string>,
    externalId: Option<string>,
    prerequisites: Option<seq<string>>,
    arguments: Option<seq<string>>,
    executor: Option<string>,
    content: Option<string>,
    cleanupCommand: Option<string>,
    cleanupExecutor: Option<string>,
    executableFile: Option<string>,
    fileDropFile: Option<string>,
    hostname: Option<string>,
    protocol: Option<string>,
    portDst: Option<int>,
    portSrc: Option<int>,
    ipDst: Option<string>,
    ipSrc: Option<string>)

  /** `PayloadCommandBlock`. */
  datatype CommandBlock = CommandBlock(executor: Option<string>, content: Option<string>, cleanupCommand: Option<seq<string>>)

  /** `StatusPayload`, the payload description saved on an inject's status. */
  datatype StatusPayload = StatusPayload(
    name: Option<string>,
    description: Option<string>,
    kind: PayloadKind,
    protocol: Option<string>,
    portDst: Option<int>,
    portSrc: Option<int>,
    ipDst: Option<string>,
    ipSrc: Option<string>,
    hostname: Option<string>,
    fileDropFile: Option<string>,
    executableFile: Option<string>,
    externalId: Option<string>,
    prerequisites: Option<seq<string>>,
    arguments: Option<seq<string>>,
    commandBlocks: seq<CommandBlock>,
    cleanupExecutor: Option<string>)

  datatype InjectStatus = InjectStatus(payloadOutput: Option<StatusPayload>)

  datatype InjectorContract = InjectorContract(payload: Option<Payload>)

  /** An expectation, with the ids of its team, asset and asset group and of its agent. */
  datatype Expectation = Expectation(team: Option<string>, asset: Option<string>, assetGroup: Option<string>, agent: Option<string>)

  /** An inject, with its targets given by their ids. */
  datatype Inject = Inject(
    status: Option<InjectStatus>,
    injectorContract: Option<InjectorContract>,
    teams: seq<string>,
    assets: seq<string>,
    assetGroups: seq<string>,
    expectations: seq<Expectation>)

  /** The description of a payload of one of the five kinds. */
  function Describe(p: Payload, kind: PayloadKind): (r: StatusPayload)
    requires !kind.OtherKind?
    ensures r.kind == kind && r.name == p.name && r.description == p.description
  {
    match kind
    case Command =>
      var block := CommandBlock(p.executor, p.content, if p.cleanupCommand.Some? then Some([p.cleanupCommand.value]) else None);
      StatusPayload(p.name, p.description, Command, None, None, None, None, None, None, None, None,
                    p.externalId, p.prerequisites, p.arguments, [block], p.cleanupExecutor)
    case Executable =>
      StatusPayload(p.name, p.description, Executable, None, None, None, None, None, None, None, p.executableFile,
                    None, None, None, [], None)
    case FileDrop =>
      StatusPayload(p.name, p.description, FileDrop, None, None, None, None, None, None, p.fileDropFile, None,
                    None, None, None, [], None)
    case DnsResolution =>
      StatusPayload(p.name, p.description, DnsResolution, None, None, None, None, None, p.hostname, None, None,
                    None, None, None, [], None)
    case NetworkTraffic =>
      StatusPayload(p.name, p.description, NetworkTraffic, p.protocol, p.portDst, p.portSrc, p.ipDst, p.ipSrc,
                    None, None, None, None, None, None, [], None)
  }

  /**
   * `getStatusPayloadFromInject`: nothing for no inject; the saved payload
   * output once the inject has run; otherwise the description of the
   * contract's payload, nothing when there is no contract, no payload or a
   * payload of another type.
   */
  function GetStatusPayloadFromInject(inject: Option<Inject>): (r: Option<StatusPayload>)
    ensures inject.None? ==> r.None?
    ensures inject.Some? && inject.value.status.Some? && inject.value.status.value.payloadOutput.Some? ==>
      r == inject.value.status.value.payloadOutput
    ensures r.Some? ==> inject.Some?
  {
    if inject.None? then None
    else
      var i := inject.value;
      if i.status.Some? && i.status.value.payloadOutput.Some? then i.status.value.payloadOutput
      else if i.injectorContract.None? || i.injectorContract.value.payload.None? then None
      else
        var payload := i.injectorContract.value.payload.value;
        if payload.kind.None? || payload.kind.value.OtherKind? then None
        else Some(Describe(payload, payload.kind.value))
  }

  /** An inject that has not run yet and whose contract has no payload of a known kind has no payload. */
  lemma {:induction false} NoPayloadWithoutKnownKind(i: Inject)
    requires !(i.status.Some? && i.status.value.payloadOutput.Some?)
    requires i.injectorContract.None? || i.injectorContract.value.payload.None?
      || i.injectorContract.value.payload.value.kind.None? || i.injectorContract.value.payload.value.kind.value.OtherKind?
    ensures GetStatusPayloadFromInject(Some(i)).None?
  {
  }

  /** Before it runs, an inject's payload is its contract's payload described: its kind, name and description. */
  lemma {:induction false} DescribedFromContract(i: Inject)
    requires !(i.status.Some? && i.status.value.payloadOutput.Some?)
    requires i.injectorContract.Some? && i.injectorContract.value.payload.Some?
    requires i.injectorContract.value.payload.value.kind.Some? && !i.injectorContract.value.payload.value.kind.value.OtherKind?
    ensures var p := i.injectorContract.value.payload.value;
      var r := GetStatusPayloadFromInject(Some(i));
      r.Some? && r.value.kind == p.kind.value && r.value.name == p.name && r.value.description == p.description
  {
  }

  /** A command payload runs as one command block: its executor and content, and its cleanup command when it has one. */
  lemma {:induction false} CommandIsOneBlock(p: Payload)
    ensures Describe(p, Command).commandBlocks == [CommandBlock(p.executor, p.content,
      if p.cleanupCommand.Some? then Some([p.cleanupCommand.value]) else None)]
    ensures forall k :: k != Command && !k.OtherKind? ==> Describe(p, k).commandBlocks == []
  {
  }

  // ---------------------------------------------------------------- primary expectations

  /** The ids of the inject's teams, assets and asset groups, pooled into one list. */
  function TargetIds(inject: Inject): (r: seq<string>)
    ensures forall x :: x in r <==> x in inject.teams || x in inject.assets || x in inject.assetGroups
  {
    inject.teams + inject.assets + inject.assetGroups
  }

  /**
   * An expectation is primary when its team, or the asset of an asset
   * expectation, or the asset group of an asset-group expectation, is one
   * of the pooled ids. `isAsset` and `isAssetGroup` classify expectations.
   */
  predicate IsPrimary(e: Expectation, ids: seq<string>, isAsset: Expectation -> bool, isAssetGroup: Expectation -> bool) {
    (e.team.Some? && e.team.value in ids)
    || (isAsset(e) && e.asset.Some? && e.asset.value in ids)
    || (isAssetGroup(e) && e.assetGroup.Some? && e.assetGroup.value in ids)
  }

  /**
   * `getPrimaryExpectations`: the primary expectations, in order. The
   * classifiers are to imply that the target they name is present, as the
   * code reads that target's id.
   */
  function GetPrimaryExpectations(inject: Inject, isAsset: Expectation -> bool, isAssetGroup: Expectation -> bool)
    : (r: seq<Expectation>)
    requires forall e :: isAsset(e) ==> e.asset.Some?
    requires forall e :: isAssetGroup(e) ==> e.assetGroup.Some?
    ensures forall e :: e in r <==> e in inject.expectations && IsPrimary(e, TargetIds(inject), isAsset, isAssetGroup)
  {
    PrimaryOf(inject.expectations, TargetIds(inject), isAsset, isAssetGroup)
  }

  /** The filter of `getPrimaryExpectations` over a list of expectations. */
  function PrimaryOf(es: seq<Expectation>, ids: seq<string>, isAsset: Expectation -> bool, isAssetGroup: Expectation -> bool)
    : (r: seq<Expectation>)
    ensures |r| <= |es|
    ensures forall e :: e in r <==> e in es && IsPrimary(e, ids, isAsset, isAssetGroup)
    decreases |es|
  {
    if |es| == 0 then []
    else
      var init, e := es[..|es| - 1], es[|es| - 1];
      assert es == init + [e];
      PrimaryOf(init, ids, isAsset, isAssetGroup) + (if IsPrimary(e, ids, isAsset, isAssetGroup) then [e] else [])
  }

  /** The filter keeps the order: the primary expectations of a concatenation are those of each part, in turn. */
  lemma {:induction false} PrimaryOfSplits(a: seq<Expectation>, b: seq<Expectation>, ids: seq<string>,
                                           isAsset: Expectation -> bool, isAssetGroup: Expectation -> bool)
    ensures PrimaryOf(a + b, ids, isAsset, isAssetGroup) == PrimaryOf(a, ids, isAsset, isAssetGroup) + PrimaryOf(b, ids, isAsset, isAssetGroup)
    decreases |b|
  {
    if |b| > 0 {
      var init := b[..|b| - 1];
      assert (a + b)[..|a + b| - 1] == a + init;
      assert (a + b)[|a + b| - 1] == b[|b| - 1];
      PrimaryOfSplits(a, init, ids, isAsset, isAssetGroup);
    } else {
      assert a + b == a;
    }
  }

  /** The ids are pooled: a team expectation whose team id is an asset's id of the inject is primary too. */
  lemma {:induction false} PooledAcrossKinds(inject: Inject, e: Expectation, isAsset: Expectation -> bool, isAssetGroup: Expectation -> bool)
    requires forall e :: isAsset(e) ==> e.asset.Some?
    requires forall e :: isAssetGroup(e) ==> e.assetGroup.Some?
    requires e in inject.expectations && e.team.Some? && e.team.value in inject.assets
    ensures e in GetPrimaryExpectations(inject, isAsset, isAssetGroup)
  {
  }

  /** Without targets no expectation is primary. */
  lemma {:induction false} NoIdsNoPrimary(es: seq<Expectation>, isAsset: Expectation -> bool, isAssetGroup: Expectation -> bool)
    ensures PrimaryOf(es, [], isAsset, isAssetGroup) == []
    decreases |es|
  {
    if |es| > 0 {
      NoIdsNoPrimary(es[..|es| - 1], isAsset, isAssetGroup);
    }
  }

  // ---------------------------------------------------------------- empty spreadsheet rows

  datatype CellType = Blank | StringCell | NumericCell | BooleanCell | FormulaCell | ErrorCell

  /** A cell: its type and its text (`toString`). */
  datatype Cell = Cell(cellType: CellType, text: string)

  /** A spreadsheet row: the first cell number, one past the last, and the cells present. */
  datatype Row = Row(firstCellNum: int, lastCellNum: int, cells: map<int, Cell>)

  /** A cell number whose cell is present, not blank, and has text that is not blank. */
  predicate FilledAt(row: Row, n: int) {
    n in row.cells && row.cells[n].cellType != Blank && !IsJavaBlank(row.cells[n].text)
  }

  /**
   * `checkIfRowIsEmpty`: a missing row, or one without cells, is empty;
   * otherwise a row is empty unless some cell from the first cell number up
   * to the last is filled.
   */
  method CheckIfRowIsEmpty(row: Option<Row>) returns (empty: bool)
    ensures row.None? ==> empty
    ensures row.Some? && row.value.lastCellNum <= 0 ==> empty
    ensures row.Some? && row.value.lastCellNum > 0 ==>
      (!empty <==> exists n :: row.value.firstCellNum <= n < row.value.lastCellNum && FilledAt(row.value, n))
  {
    if row.None? {
      return true;
    }
    var r := row.value;
    if r.lastCellNum <= 0 {
      return true;
    }
    var cellNum := r.firstCellNum;
    while cellNum < r.lastCellNum
      invariant r.firstCellNum <= cellNum
      invariant forall n :: r.firstCellNum <= n < cellNum ==> !FilledAt(r, n)
      decreases r.lastCellNum - cellNum
    {
      if cellNum in r.cells {
        var cell := r.cells[cellNum];
        if cell.cellType != Blank && !IsJavaBlank(cell.text) {
          assert FilledAt(r, cellNum);
          return false;
        }
      }
      cellNum := cellNum + 1;
    }
    return true;
  }
}
