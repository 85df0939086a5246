/**
 desktop-app/internal/evesde/importer.go: validateRecord, and the insertion of buildDB into
 tables whose foreign keys SQLite checks row by row.
 */
module SdeImport {
  import opened Wrappers
  import MarketGroupOrder
  import RouteGraph

  datatype Kind =
    | KCategory | KRegion | KMarketGroup | KGroup | KType | KConstellation | KSystem | KStargate
    | KBlueprint | KMaterial

  datatype Record =
    | Category(id: int, name: string)
    | Region(id: int, name: string)
    | MarketGroup(id: int, name: string, parent: Option<int>)
    | Group(id: int, name: string, category: int)
    | Type(id: int, name: string, group: int, marketGroup: Option<int>)
    | Constellation(id: int, name: string, region: int)
    | SolarSystem(id: int, name: string, constellation: int, security: real)
    | Stargate(id: int, system: int, destination: int)
    | Blueprint(typeId: int, time: int)
    | Material(blueprint: int, material: int, quantity: int)

  /** A primary key of one of the tables; `part` is the second column of a material's key. */
  datatype Ref = Ref(kind: Kind, id: int, part: int)

  function KindOf(r: Record): Kind {
    match r
    case Category(_, _) => KCategory
    case Region(_, _) => KRegion
    case MarketGroup(_, _, _) => KMarketGroup
    case Group(_, _, _) => KGroup
    case Type(_, _, _, _) => KType
    case Constellation(_, _, _) => KConstellation
    case SolarSystem(_, _, _, _) => KSystem
    case Stargate(_, _, _) => KStargate
    case Blueprint(_, _) => KBlueprint
    case Material(_, _, _) => KMaterial
  }

  /** validateRecord. */
  predicate ValidRecord(r: Record) {
    match r
    case Category(id, name) => id >= 0 && !Blank(name)
    case Region(id, name) => id >= 0 && !Blank(name)
    case MarketGroup(id, name, _) => id >= 0 && !Blank(name)
    case Group(id, name, category) => id >= 0 && !Blank(name) && category >= 0
    case Type(id, name, group, _) => id >= 0 && !Blank(name) && group >= 0
    case Constellation(id, name, region) => id >= 0 && !Blank(name) && region > 0
    case SolarSystem(id, name, constellation, _) => id >= 0 && !Blank(name) && constellation > 0
    case Stargate(id, system, destination) => id >= 0 && system > 0 && destination > 0
    case Blueprint(typeId, time) => typeId > 0 && time >= 0
    case Material(blueprint, material, quantity) => blueprint > 0 && material > 0 && quantity > 0
  }

  function KeyOf(r: Record): Ref {
    match r
    case Blueprint(typeId, _) => Ref(KBlueprint, typeId, 0)
    case Material(blueprint, material, _) => Ref(KMaterial, blueprint, material)
    case _ => Ref(KindOf(r), r.id, 0)
  }

  /** The rows that the foreign keys of a row refer to. */
  function References(r: Record): set<Ref> {
    match r
    case Group(_, _, category) => {Ref(KCategory, category, 0)}
    case Type(_, _, group, market) =>
      {Ref(KGroup, group, 0)} + if market.Some? then {Ref(KMarketGroup, market.value, 0)} else {}
    case Constellation(_, _, region) => {Ref(KRegion, region, 0)}
    case SolarSystem(_, _, constellation, _) => {Ref(KConstellation, constellation, 0)}
    case Stargate(_, system, destination) => {Ref(KSystem, system, 0), Ref(KSystem, destination, 0)}
    case MarketGroup(_, _, parent) => if parent.Some? then {Ref(KMarketGroup, parent.value, 0)} else {}
    case Material(blueprint, _, _) => {Ref(KBlueprint, blueprint, 0)}
    case _ => {}
  }

  const ORDER: seq<Kind> :=
    [KCategory, KRegion, KMarketGroup, KGroup, KType, KConstellation, KSystem, KStargate, KBlueprint, KMaterial]

  /** An entry of one of the three unique name indexes. */
  datatype Name = Name(kind: Kind, name: string)

  function NameOf(r: Record): Option<Name> {
    match r
    case Region(_, name) => Some(Name(KRegion, name))
    case Constellation(_, name, _) => Some(Name(KConstellation, name))
    case SolarSystem(_, name, _, _) => Some(Name(KSystem, name))
    case _ => None
  }

  /** Two names the indexes take for one, which stands for the NOCASE collation. */
  type Alike = (string, string) -> bool

  // ---------------------------------------------------------------- inserting

  /** The primary keys stored, and the names in the unique indexes. */
  datatype Tables = Tables(keys: set<Ref>, names: set<Name>) {
    function Insert(r: Record): Tables {
      Tables(keys + {KeyOf(r)}, names + if NameOf(r).Some? then {NameOf(r).value} else {})
    }
  }

  predicate NameFree(names: set<Name>, r: Record, alike: Alike) {
    NameOf(r).Some? ==> forall n :: n in names && n.kind == KindOf(r) ==> !alike(n.name, NameOf(r).value.name)
  }

  /** One INSERT: a new key and name, and every foreign key present already, the row's own included. */
  predicate Inserts(t: Tables, r: Record, alike: Alike) {
    KeyOf(r) !in t.keys && References(r) <= t.keys + {KeyOf(r)} && NameFree(t.names, r, alike)
  }

  /** The inner loop of buildDB over the records of one kind; None is a failed import. */
  function InsertKind(t: Tables, records: seq<Record>, kind: Kind, alike: Alike): Option<Tables> {
    if records == [] then Some(t)
    else
      var before := InsertKind(t, records[..|records| - 1], kind, alike);
      var r := records[|records| - 1];
      if before.None? || KindOf(r) != kind then before
      else if Inserts(before.value, r, alike) then Some(before.value.Insert(r))
      else None
  }

  function Build(records: seq<Record>, kinds: nat, alike: Alike): Option<Tables>
    requires kinds <= |ORDER|
  {
    if kinds == 0 then Some(Tables({}, {}))
    else
      var before := Build(records, kinds - 1, alike);
      if before.None? then None else InsertKind(before.value, records, ORDER[kinds - 1], alike)
  }

  /** The loops of buildDB. */
  method BuildTables(records: seq<Record>, alike: Alike) returns (stored: Option<Tables>)
    ensures stored == Build(records, |ORDER|, alike)
  {
    var t := Tables({}, {});
    for k := 0 to |ORDER|
      invariant Build(records, k, alike) == Some(t)
    {
      ghost var before := t;
      for i := 0 to |records|
        invariant InsertKind(before, records[..i], ORDER[k], alike) == Some(t)
      {
        var r := records[i];
        assert records[..i + 1][..i] == records[..i];
        if KindOf(r) == ORDER[k] {
          if KeyOf(r) in t.keys || !(References(r) <= t.keys + {KeyOf(r)}) || !NameFree(t.names, r, alike) {
            FailedStays(before, records, ORDER[k], alike, i + 1);
            BuildFailed(records, k + 1, alike);
            return None;
          }
          t := t.Insert(r);
        }
      }
      assert records[..|records|] == records;
    }
    stored := Some(t);
  }

  predicate AllValid(records: seq<Record>) { forall r :: r in records ==> ValidRecord(r) }

  /** Import: nothing is built unless every record is valid, which covers the checks of the columns. */
  function Imported(records: seq<Record>, alike: Alike): Option<Tables> {
    if AllValid(records) then Build(records, |ORDER|, alike) else None
  }

  /** validateRecord. */
  method ValidateRecord(r: Record) returns (ok: bool)
    ensures ok == ValidRecord(r)
  {
    if !r.Blueprint? && !r.Material? && r.id < 0 {
      return false;
    }
    if !r.Stargate? && !r.Blueprint? && !r.Material? {
      BlankIsTrimmed(r.name);
      if Trim(r.name) == "" {
        return false;
      }
    }
    match r
    case Category(_, _) => return true;
    case Region(_, _) => return true;
    case MarketGroup(_, _, _) => return true;
    case Group(_, _, category) => return !(category < 0);
    case Type(_, _, group, _) => return !(group < 0);
    case Constellation(_, _, region) => return !(region <= 0);
    case SolarSystem(_, _, constellation, _) => return !(constellation <= 0);
    case Stargate(_, system, destination) => return !(system <= 0 || destination <= 0);
    case Blueprint(typeId, time) => return !(typeId <= 0 || time < 0);
    case Material(blueprint, material, quantity) => return !(blueprint <= 0 || material <= 0 || quantity <= 0);
  }

  method Import(records: seq<Record>, alike: Alike) returns (stored: Option<Tables>)
    ensures stored == Imported(records, alike)
  {
    for i := 0 to |records|
      invariant AllValid(records[..i])
    {
      var valid := ValidateRecord(records[i]);
      if !valid {
        return None;
      }
    }
    assert records[..|records|] == records;
    stored := BuildTables(records, alike);
  }

  lemma {:induction false} FailedStays(t: Tables, records: seq<Record>, kind: Kind, alike: Alike, n: nat)
    requires n <= |records| && InsertKind(t, records[..n], kind, alike) == None
    ensures InsertKind(t, records, kind, alike) == None
    decreases |records|
  {
    if n == |records| {
      assert records[..n] == records;
    } else {
      assert records[..|records| - 1][..n] == records[..n];
      FailedStays(t, records[..|records| - 1], kind, alike, n);
    }
  }

  lemma {:induction false} BuildFailed(records: seq<Record>, k: nat, alike: Alike)
    requires k <= |ORDER| && Build(records, k, alike) == None
    ensures Build(records, |ORDER|, alike) == None
    decreases |ORDER| - k
  {
    if k < |ORDER| {
      BuildFailed(records, k + 1, alike);
    }
  }

  // ---------------------------------------------------------------- exactly when it succeeds

  /** Nothing before record `i` of the file has its key. */
  ghost predicate OwnKey(records: seq<Record>, i: nat)
    requires i < |records|
  {
    forall j :: 0 <= j < i ==> KeyOf(records[j]) != KeyOf(records[i])
  }

  /** And, for a region, constellation or system, nothing of its kind before it has its name. */
  ghost predicate OwnName(records: seq<Record>, i: nat, alike: Alike)
    requires i < |records|
  {
    NameOf(records[i]).Some? ==>
      forall n :: NameIn(records[..i], n) && n.kind == KindOf(records[i]) ==>
        !alike(n.name, NameOf(records[i]).value.name)
  }

  ghost predicate InFile(records: seq<Record>, ref: Ref) {
    exists j :: 0 <= j < |records| && KeyOf(records[j]) == ref
  }

  ghost predicate NameIn(records: seq<Record>, n: Name) {
    exists j :: 0 <= j < |records| && NameOf(records[j]) == Some(n)
  }

  /** Every reference is in the file; one to the row's own table is the row itself or further up. */
  ghost predicate ReferencesMet(records: seq<Record>, i: nat)
    requires i < |records|
  {
    forall ref :: ref in References(records[i]) ==>
      if ref.kind == KindOf(records[i]) then InFile(records[..i + 1], ref) else InFile(records, ref)
  }

  function Place(kind: Kind): nat
    ensures Place(kind) < |ORDER| && ORDER[Place(kind)] == kind
  {
    match kind
    case KCategory => 0
    case KRegion => 1
    case KMarketGroup => 2
    case KGroup => 3
    case KType => 4
    case KConstellation => 5
    case KSystem => 6
    case KStargate => 7
    case KBlueprint => 8
    case KMaterial => 9
  }

  /** The order of the tables: a reference leads to an earlier table, or from market group to market group. */
  lemma TablesAreOrdered(r: Record)
    ensures forall ref :: ref in References(r) ==>
      Place(ref.kind) < Place(KindOf(r)) || (ref.kind == KindOf(r) == KMarketGroup)
  {
  }

  /** The rows stored once the first `k` kinds are in. */
  ghost predicate HoldsKinds(t: Tables, records: seq<Record>, k: nat) {
    && (forall ref :: ref in t.keys <==> InFile(records, ref) && Place(ref.kind) < k)
    && (forall n :: n in t.names <==> NameIn(records, n) && Place(n.kind) < k)
  }

  ghost predicate Good(records: seq<Record>, i: nat, alike: Alike)
    requires i < |records|
  {
    OwnKey(records, i) && ReferencesMet(records, i) && OwnName(records, i, alike)
  }

  ghost predicate AllGood(records: seq<Record>, alike: Alike) {
    forall i: nat {:trigger Good(records, i, alike)} :: i < |records| ==> Good(records, i, alike)
  }

  ghost predicate GoodKind(records: seq<Record>, n: nat, kind: Kind, alike: Alike)
    requires n <= |records|
  {
    forall i: nat {:trigger Good(records, i, alike)} :: i < n && KindOf(records[i]) == kind ==> Good(records, i, alike)
  }

  /** What the inner loop has stored after `n` records. */
  ghost predicate HoldsPart(t: Tables, records: seq<Record>, n: nat, kind: Kind)
    requires n <= |records|
  {
    && (forall ref :: ref in t.keys <==>
          (InFile(records, ref) && Place(ref.kind) < Place(kind)) || (InFile(records[..n], ref) && ref.kind == kind))
    && (forall m :: m in t.names <==>
          (NameIn(records, m) && Place(m.kind) < Place(kind)) || (NameIn(records[..n], m) && m.kind == kind))
  }

  /** The inner loop has come through its first `n` records exactly if they are good, and holds them. */
  ghost predicate PartExactly(t: Option<Tables>, records: seq<Record>, n: nat, kind: Kind, alike: Alike)
    requires n <= |records|
  {
    var good, held := t.Some? <==> GoodKind(records, n, kind, alike), t.Some? ==> HoldsPart(t.value, records, n, kind);
    good && held
  }

  lemma {:induction false} InsertKindExactly(t: Tables, records: seq<Record>, n: nat, kind: Kind, alike: Alike)
    requires n <= |records| && HoldsKinds(t, records, Place(kind))
    ensures PartExactly(InsertKind(t, records[..n], kind, alike), records, n, kind, alike)
  {
    if n == 0 {
      NothingInserted(t, records, kind, alike);
    } else {
      InsertKindExactly(t, records, n - 1, kind, alike);
      InsertKindMore(t, records, n - 1, kind, alike);
      var before, after := InsertKind(t, records[..n - 1], kind, alike), InsertKind(t, records[..n], kind, alike);
      InsertStep(before, after, records, n - 1, kind, alike);
    }
  }

  lemma NothingInserted(t: Tables, records: seq<Record>, kind: Kind, alike: Alike)
    requires HoldsKinds(t, records, Place(kind))
    ensures PartExactly(InsertKind(t, records[..0], kind, alike), records, 0, kind, alike)
  {
    assert HoldsPart(t, records, 0, kind);
  }

  lemma InsertStep(
    before: Option<Tables>, after: Option<Tables>, records: seq<Record>, n: nat, kind: Kind, alike: Alike)
    requires n < |records|
    requires after == if before.None? || KindOf(records[n]) != kind then before
                      else if Inserts(before.value, records[n], alike) then Some(before.value.Insert(records[n]))
                      else None
    requires PartExactly(before, records, n, kind, alike)
    ensures PartExactly(after, records, n + 1, kind, alike)
  {
    GoodKindMore(records, n, kind, alike);
    if before.Some? {
      HoldsPartMore(before.value, records, n, kind);
      if KindOf(records[n]) == kind {
        InsertIsGood(before.value, records, n, alike);
      }
    }
  }

  lemma InFileMore(records: seq<Record>, n: nat, ref: Ref)
    requires n < |records|
    ensures InFile(records[..n + 1], ref) <==> InFile(records[..n], ref) || KeyOf(records[n]) == ref
    ensures InFile(records[..n], ref) ==> InFile(records, ref)
  {
  }

  lemma NameInMore(records: seq<Record>, n: nat, m: Name)
    requires n < |records|
    ensures NameIn(records[..n + 1], m) <==> NameIn(records[..n], m) || NameOf(records[n]) == Some(m)
  {
  }

  /** One insert of the inner loop succeeds exactly if its record is good. */
  lemma InsertIsGood(t: Tables, records: seq<Record>, n: nat, alike: Alike)
    requires n < |records| && HoldsPart(t, records, n, KindOf(records[n]))
    ensures Inserts(t, records[n], alike) <==> Good(records, n, alike)
  {
    ReferencesAreMet(t, records, n);
    KeyIsOwn(t, records, n);
    var r := records[n];
    forall m: Name | m.kind == KindOf(r)
      ensures m in t.names <==> NameIn(records[..n], m)
    {
    }
  }

  lemma ReferencesAreMet(t: Tables, records: seq<Record>, n: nat)
    requires n < |records| && HoldsPart(t, records, n, KindOf(records[n]))
    ensures References(records[n]) <= t.keys + {KeyOf(records[n])} <==> ReferencesMet(records, n)
  {
    var r := records[n];
    TablesAreOrdered(r);
    forall ref | ref in References(r)
      ensures ref in t.keys + {KeyOf(r)} <==>
        if ref.kind == KindOf(r) then InFile(records[..n + 1], ref) else InFile(records, ref)
    {
      InFileMore(records, n, ref);
    }
  }

  lemma KeyIsOwn(t: Tables, records: seq<Record>, n: nat)
    requires n < |records| && HoldsPart(t, records, n, KindOf(records[n]))
    ensures KeyOf(records[n]) !in t.keys <==> OwnKey(records, n)
  {
    assert KeyOf(records[n]) in t.keys <==> InFile(records[..n], KeyOf(records[n]));
  }

  lemma InsertKindMore(t: Tables, records: seq<Record>, n: nat, kind: Kind, alike: Alike)
    requires n < |records|
    ensures var before, after := InsertKind(t, records[..n], kind, alike), InsertKind(t, records[..n + 1], kind, alike);
      after == (if before.None? || KindOf(records[n]) != kind then before
                else if Inserts(before.value, records[n], alike) then Some(before.value.Insert(records[n]))
                else None)
  {
    assert records[..n + 1][..n] == records[..n];
  }

  lemma GoodKindMore(records: seq<Record>, n: nat, kind: Kind, alike: Alike)
    requires n < |records|
    ensures GoodKind(records, n + 1, kind, alike) <==>
      GoodKind(records, n, kind, alike) && (KindOf(records[n]) == kind ==> Good(records, n, alike))
  {
  }

  lemma HoldsPartMore(t: Tables, records: seq<Record>, n: nat, kind: Kind)
    requires n < |records| && HoldsPart(t, records, n, kind)
    ensures HoldsPart(if KindOf(records[n]) == kind then t.Insert(records[n]) else t, records, n + 1, kind)
  {
    forall ref
      ensures InFile(records[..n + 1], ref) <==> InFile(records[..n], ref) || KeyOf(records[n]) == ref
    {
      InFileMore(records, n, ref);
    }
    forall m
      ensures NameIn(records[..n + 1], m) <==> NameIn(records[..n], m) || NameOf(records[n]) == Some(m)
    {
      NameInMore(records, n, m);
    }
  }

  ghost predicate GoodKinds(records: seq<Record>, k: nat, alike: Alike)
    requires k <= |ORDER|
  {
    forall j :: 0 <= j < k ==> GoodKind(records, |records|, ORDER[j], alike)
  }

  lemma {:induction false} BuildExactly(records: seq<Record>, k: nat, alike: Alike)
    requires k <= |ORDER|
    ensures Build(records, k, alike).Some? <==> GoodKinds(records, k, alike)
    ensures Build(records, k, alike).Some? ==> HoldsKinds(Build(records, k, alike).value, records, k)
  {
    if k > 0 {
      BuildExactly(records, k - 1, alike);
      BuildStep(Build(records, k - 1, alike), Build(records, k, alike), records, k - 1, alike);
    }
  }

  lemma BuildStep(before: Option<Tables>, after: Option<Tables>, records: seq<Record>, k: nat, alike: Alike)
    requires k < |ORDER|
    requires after == if before.None? then None else InsertKind(before.value, records, ORDER[k], alike)
    requires before.Some? <==> GoodKinds(records, k, alike)
    requires before.Some? ==> HoldsKinds(before.value, records, k)
    ensures after.Some? <==> GoodKinds(records, k + 1, alike)
    ensures after.Some? ==> HoldsKinds(after.value, records, k + 1)
  {
    if before.Some? {
      KindExactly(before.value, records, k, alike);
    }
  }

  lemma KindExactly(before: Tables, records: seq<Record>, k: nat, alike: Alike)
    requires k < |ORDER| && HoldsKinds(before, records, k)
    ensures InsertKind(before, records, ORDER[k], alike).Some? <==> GoodKind(records, |records|, ORDER[k], alike)
    ensures var r := InsertKind(before, records, ORDER[k], alike); r.Some? ==> HoldsKinds(r.value, records, k + 1)
  {
    InsertKindExactly(before, records, |records|, ORDER[k], alike);
    assert records[..|records|] == records;
    var r := InsertKind(before, records, ORDER[k], alike);
    if r.Some? {
      KindHeld(r.value, records, ORDER[k]);
    }
  }

  lemma KindHeld(t: Tables, records: seq<Record>, kind: Kind)
    requires HoldsPart(t, records, |records|, kind)
    ensures HoldsKinds(t, records, Place(kind) + 1)
  {
    assert records[..|records|] == records;
    forall k: Kind
      ensures Place(k) == Place(kind) <==> k == kind
    {
      assert ORDER[Place(k)] == k && ORDER[Place(kind)] == kind;
    }
  }

  /**
   The import succeeds exactly if every record is valid, has a key of its own, and a name of its
   own where names are unique, and refers to rows of the file; only a market group must come
   after its parent. Then every row of the file is stored.
   */
  lemma ImportSucceedsExactly(records: seq<Record>, alike: Alike)
    ensures Imported(records, alike).Some? <==> AllValid(records) && AllGood(records, alike)
    ensures var r := Imported(records, alike);
      r.Some? ==> forall ref :: ref in r.value.keys <==> InFile(records, ref)
  {
    BuildSucceedsExactly(records, alike);
  }

  lemma BuildSucceedsExactly(records: seq<Record>, alike: Alike)
    ensures Build(records, |ORDER|, alike).Some? <==> AllGood(records, alike)
    ensures var r := Build(records, |ORDER|, alike);
      r.Some? ==> forall ref :: ref in r.value.keys <==> InFile(records, ref)
  {
    BuildExactly(records, |ORDER|, alike);
    if GoodKinds(records, |ORDER|, alike) {
      forall i: nat | i < |records|
        ensures Good(records, i, alike)
      {
        assert GoodKind(records, |records|, ORDER[Place(KindOf(records[i]))], alike);
      }
    }
  }

  // ---------------------------------------------------------------- the same, table by table

  /** Record `a` is of the kind and has the ID. */
  predicate Is(a: Record, kind: Kind, id: int) {
    match a
    case Category(i, _) => kind == KCategory && i == id
    case Region(i, _) => kind == KRegion && i == id
    case MarketGroup(i, _, _) => kind == KMarketGroup && i == id
    case Group(i, _, _) => kind == KGroup && i == id
    case Type(i, _, _, _) => kind == KType && i == id
    case Constellation(i, _, _) => kind == KConstellation && i == id
    case SolarSystem(i, _, _, _) => kind == KSystem && i == id
    case Stargate(i, _, _) => kind == KStargate && i == id
    case Blueprint(i, _) => kind == KBlueprint && i == id
    case Material(_, _, _) => false
  }

  ghost predicate Listed(records: seq<Record>, n: nat, kind: Kind, id: int)
    requires n <= |records|
  {
    exists j :: 0 <= j < n && Is(records[j], kind, id)
  }

  /** What the columns of a row refer to is in the file; the parent of a market group not behind it. */
  ghost predicate RefersToFile(records: seq<Record>, i: nat)
    requires i < |records|
  {
    var all := |records|;
    match records[i]
    case MarketGroup(_, _, parent) => parent.Some? ==> Listed(records, i + 1, KMarketGroup, parent.value)
    case Group(_, _, category) => Listed(records, all, KCategory, category)
    case Type(_, _, group, market) =>
      Listed(records, all, KGroup, group) && (market.Some? ==> Listed(records, all, KMarketGroup, market.value))
    case Constellation(_, _, region) => Listed(records, all, KRegion, region)
    case SolarSystem(_, _, constellation, _) => Listed(records, all, KConstellation, constellation)
    case Stargate(_, system, destination) =>
      Listed(records, all, KSystem, system) && Listed(records, all, KSystem, destination)
    case Material(blueprint, _, _) => Listed(records, all, KBlueprint, blueprint)
    case _ => true
  }

  /** Two rows of one table with the same primary key. */
  predicate SameRow(a: Record, b: Record) {
    || (a.Category? && b.Category? && a.id == b.id) || (a.Region? && b.Region? && a.id == b.id)
    || (a.MarketGroup? && b.MarketGroup? && a.id == b.id) || (a.Group? && b.Group? && a.id == b.id)
    || (a.Type? && b.Type? && a.id == b.id) || (a.Constellation? && b.Constellation? && a.id == b.id)
    || (a.SolarSystem? && b.SolarSystem? && a.id == b.id) || (a.Stargate? && b.Stargate? && a.id == b.id)
    || (a.Blueprint? && b.Blueprint? && a.typeId == b.typeId)
    || (a.Material? && b.Material? && a.blueprint == b.blueprint && a.material == b.material)
  }

  /** Two regions, constellations or systems whose names are taken for one. */
  predicate SameName(a: Record, b: Record, alike: Alike) {
    || (a.Region? && b.Region? && alike(a.name, b.name))
    || (a.Constellation? && b.Constellation? && alike(a.name, b.name))
    || (a.SolarSystem? && b.SolarSystem? && alike(a.name, b.name))
  }

  /** The import told by its tables: valid rows, no primary key and no unique name twice, no reference into nothing. */
  lemma ImportedTableByTable(records: seq<Record>, alike: Alike)
    ensures Imported(records, alike).Some? <==>
      && (forall r :: r in records ==> ValidRecord(r))
      && (forall i, j :: 0 <= i < j < |records| ==> !SameRow(records[i], records[j]))
      && (forall i, j :: 0 <= i < j < |records| ==> !SameName(records[i], records[j], alike))
      && (forall i: nat :: i < |records| ==> RefersToFile(records, i))
  {
    ImportSucceedsExactly(records, alike);
    forall i: nat | i < |records|
      ensures OwnKey(records, i) <==> forall j :: 0 <= j < i ==> !SameRow(records[j], records[i])
      ensures OwnName(records, i, alike) <==> forall j :: 0 <= j < i ==> !SameName(records[j], records[i], alike)
      ensures ReferencesMet(records, i) <==> RefersToFile(records, i)
    {
      KeysTableByTable(records, i);
      NamesTableByTable(records, i, alike);
      ReferencesTableByTable(records, i);
    }
    if AllGood(records, alike) {
      forall i: nat | i < |records|
        ensures OwnKey(records, i) && OwnName(records, i, alike) && ReferencesMet(records, i)
      {
        assert Good(records, i, alike);
      }
    }
  }

  lemma KeysTableByTable(records: seq<Record>, i: nat)
    requires i < |records|
    ensures OwnKey(records, i) <==> forall j :: 0 <= j < i ==> !SameRow(records[j], records[i])
  {
    forall j | 0 <= j < i
      ensures SameRow(records[j], records[i]) <==> KeyOf(records[j]) == KeyOf(records[i])
    {
    }
  }

  lemma NamesTableByTable(records: seq<Record>, i: nat, alike: Alike)
    requires i < |records|
    ensures OwnName(records, i, alike) <==> forall j :: 0 <= j < i ==> !SameName(records[j], records[i], alike)
  {
    forall j | 0 <= j < i && SameName(records[j], records[i], alike)
      ensures !OwnName(records, i, alike)
    {
      assert NameOf(records[..i][j]) == Some(NameOf(records[j]).value);
      assert NameIn(records[..i], NameOf(records[j]).value);
    }
    if !OwnName(records, i, alike) {
      var n :| NameIn(records[..i], n) && n.kind == KindOf(records[i]) && alike(n.name, NameOf(records[i]).value.name);
      var j :| 0 <= j < i && NameOf(records[..i][j]) == Some(n);
      assert SameName(records[j], records[i], alike);
    }
  }

  lemma ListedIsInFile(records: seq<Record>, n: nat, kind: Kind, id: int)
    requires n <= |records| && kind != KMaterial
    ensures Listed(records, n, kind, id) <==> InFile(records[..n], Ref(kind, id, 0))
  {
    forall j | 0 <= j < n
      ensures Is(records[j], kind, id) <==> KeyOf(records[..n][j]) == Ref(kind, id, 0)
    {
    }
  }

  lemma ReferencesTableByTable(records: seq<Record>, i: nat)
    requires i < |records|
    ensures ReferencesMet(records, i) <==> RefersToFile(records, i)
  {
    assert records[..|records|] == records;
    forall ref | ref in References(records[i])
      ensures ref.part == 0 && ref.kind != KMaterial
      ensures Listed(records, |records|, ref.kind, ref.id) <==> InFile(records, ref)
      ensures Listed(records, i + 1, ref.kind, ref.id) <==> InFile(records[..i + 1], ref)
    {
      ListedIsInFile(records, |records|, ref.kind, ref.id);
      ListedIsInFile(records, i + 1, ref.kind, ref.id);
    }
    match records[i]
    case MarketGroup(_, _, parent) =>
      if parent.Some? { assert References(records[i]) == {Ref(KMarketGroup, parent.value, 0)}; }
    case Group(_, _, category) => assert References(records[i]) == {Ref(KCategory, category, 0)};
    case Type(_, _, group, market) =>
      assert Ref(KGroup, group, 0) in References(records[i]);
      if market.Some? { assert Ref(KMarketGroup, market.value, 0) in References(records[i]); }
    case Constellation(_, _, region) => assert References(records[i]) == {Ref(KRegion, region, 0)};
    case SolarSystem(_, _, constellation, _) =>
      assert References(records[i]) == {Ref(KConstellation, constellation, 0)};
    case Stargate(_, system, destination) =>
      assert Ref(KSystem, system, 0) in References(records[i]);
      assert Ref(KSystem, destination, 0) in References(records[i]);
    case Material(blueprint, _, _) => assert References(records[i]) == {Ref(KBlueprint, blueprint, 0)};
    case _ =>
  }

  // ---------------------------------------------------------------- market groups of the converter

  function AsRecord(g: MarketGroupOrder.MarketGroup): Record { MarketGroup(g.key, g.name, g.parent) }

  /** The market groups as run emits them. */
  function Emitted(groups: seq<MarketGroupOrder.MarketGroup>): seq<Record> {
    seq(|groups|, i requires 0 <= i < |groups| => AsRecord(groups[i]))
  }

  /** For them, parents first is what the importer asks for. */
  lemma ParentsFirstIsGood(groups: seq<MarketGroupOrder.MarketGroup>, alike: Alike)
    requires MarketGroupOrder.UniqueKeys(groups)
    ensures MarketGroupOrder.ParentsFirst(groups) <==> Build(Emitted(groups), |ORDER|, alike).Some?
  {
    var records := Emitted(groups);
    BuildSucceedsExactly(records, alike);
    forall i: nat | i < |groups|
      ensures Good(records, i, alike) <==> MarketGroupOrder.ParentStored(groups, i)
    {
      var g := groups[i];
      if g.parent.Some? {
        var ref := Ref(KMarketGroup, g.parent.value, 0);
        assert References(records[i]) == {ref};
        if InFile(records[..i + 1], ref) {
          var j :| 0 <= j < i + 1 && KeyOf(records[..i + 1][j]) == ref;
          assert g.parent == Some(groups[j].key);
        }
        if MarketGroupOrder.ParentStored(groups, i) {
          var j :| 0 <= j <= i && g.parent == Some(groups[j].key);
          assert KeyOf(records[..i + 1][j]) == ref;
        }
      }
    }
    if MarketGroupOrder.ParentsFirst(groups) {
      forall i: nat | i < |records|
        ensures Good(records, i, alike)
      {
        assert MarketGroupOrder.ParentStored(groups, i);
      }
    }
    if forall i: nat {:trigger Good(records, i, alike)} :: i < |records| ==> Good(records, i, alike) {
      forall i | 0 <= i < |groups|
        ensures MarketGroupOrder.ParentStored(groups, i)
      {
        assert Good(records, i, alike);
      }
    }
  }

  /** The converter's sort and the importer together: only an invalid group or a missing parent can fail. */
  lemma ForestImports(
    input: seq<MarketGroupOrder.MarketGroup>, output: seq<MarketGroupOrder.MarketGroup>, rank: map<int, nat>,
    alike: Alike)
    requires MarketGroupOrder.UniqueKeys(input) && MarketGroupOrder.Permutes(input, output)
    requires MarketGroupOrder.Stable(input, output) && MarketGroupOrder.SortedByDepth(output, input)
    requires MarketGroupOrder.Forest(input, rank)
    ensures Imported(Emitted(output), alike).Some? <==>
      forall c :: c in input ==>
        ValidRecord(AsRecord(c)) && (c.parent.Some? ==> MarketGroupOrder.Has(input, c.parent.value))
  {
    EmittedIsValid(input, output);
    MarketGroupOrder.UniquePermutes(input, output);
    MarketGroupOrder.ForestParentsFirst(input, output, rank);
    ParentsFirstIsGood(output, alike);
  }

  lemma EmittedIsValid(input: seq<MarketGroupOrder.MarketGroup>, output: seq<MarketGroupOrder.MarketGroup>)
    requires MarketGroupOrder.Permutes(input, output)
    ensures AllValid(Emitted(output)) <==> forall c :: c in input ==> ValidRecord(AsRecord(c))
  {
    forall c
      ensures c in input <==> c in output
    {
      assert c in input <==> c in multiset(input);
      assert c in output <==> c in multiset(output);
    }
    forall i | 0 <= i < |output|
      ensures AsRecord(output[i]) in Emitted(output)
    {
      assert Emitted(output)[i] == AsRecord(output[i]);
    }
  }

  // ---------------------------------------------------------------- the map of the route search

  function GatesOf(records: seq<Record>): seq<(int, int)> {
    if records == [] then []
    else
      var r := records[|records| - 1];
      GatesOf(records[..|records| - 1]) + if r.Stargate? then [(r.system, r.destination)] else []
  }

  /** The gates are exactly those of the stargates. */
  lemma {:induction false} GatesAreRecords(records: seq<Record>, gate: (int, int))
    ensures gate in GatesOf(records) <==> exists i ::
      0 <= i < |records| && records[i].Stargate? && gate == (records[i].system, records[i].destination)
  {
    if records != [] {
      var n := |records| - 1;
      GatesAreRecords(records[..n], gate);
      assert forall i :: 0 <= i < n ==> records[..n][i] == records[i];
      if i :| 0 <= i < n && records[i].Stargate? && gate == (records[i].system, records[i].destination) {
        assert records[..n][i].Stargate?;
      }
    }
  }

  /** An imported map meets what the route search relies on: gates join systems with positive IDs. */
  lemma ImportedMapIsWellFormed(records: seq<Record>, systems: map<int, RouteGraph.System>, alike: Alike)
    requires Imported(records, alike).Some?
    requires forall id :: id in systems ==> systems[id].id == id
    requires forall id :: InFile(records, Ref(KSystem, id, 0)) ==> id in systems
    ensures RouteGraph.Galaxy(systems, GatesOf(records)).WellFormed()
    ensures forall gate :: gate in GatesOf(records) ==> gate.0 in systems && gate.1 in systems
  {
    ImportSucceedsExactly(records, alike);
    forall gate | gate in GatesOf(records)
      ensures 0 < gate.0 && 0 < gate.1 && gate.0 in systems && gate.1 in systems
    {
      GatesAreRecords(records, gate);
      var i :| 0 <= i < |records| && records[i].Stargate? && gate == (records[i].system, records[i].destination);
      assert Good(records, i, alike) && ValidRecord(records[i]);
      assert Ref(KSystem, gate.0, 0) in References(records[i]) && Ref(KSystem, gate.1, 0) in References(records[i]);
    }
  }
}
