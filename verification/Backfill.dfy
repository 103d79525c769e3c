/** Backfilling natural keys onto stored rows: one pass to derive and group, one
    to stamp, and what the report then says. */
module Backfill {
  import opened Prelude
  import opened NaturalKey

  /** What the key field of a row's metadata holds. */
  datatype KeyField = Absent | Text(key: string) | OtherValue

  datatype Meta = NoMeta | NotObject | Object(key: KeyField, duplicateOf: Option<string>, others: map<string, string>)

  /** One line of the file. A blank or unparseable line is copied as it is. */
  datatype Row =
    | Raw(text: string, blank: bool)
    | Good(id: string, source: string, sourceId: string, metadata: Meta, others: map<string, string>)

  function ExistingKey(row: Row): Option<string> {
    if row.Good? && row.metadata.Object? && row.metadata.key.Text? && row.metadata.key.key != ""
    then Some(row.metadata.key.key) else None
  }

  function DerivedKey(env: KeyEnv, row: Row): Option<string> {
    if !row.Good? || row.source == "" || row.sourceId == "" then None
    else match ExternalKey(env, Some(row.source), Some(row.sourceId))
      case Ok(k) => Some(k)
      case Err(_) => None
  }

  function KeyOf(env: KeyEnv, row: Row): Option<string> {
    if ExistingKey(row).Some? then ExistingKey(row) else DerivedKey(env, row)
  }

  /** The keys of the rows that have one, in order. */
  function KeysIn(env: KeyEnv, rows: seq<Row>): seq<string> {
    if rows == [] then []
    else
      var k := KeyOf(env, rows[|rows| - 1]);
      KeysIn(env, rows[..|rows| - 1]) + (if k.Some? then [k.value] else [])
  }

  /** The ids of the rows under one key, in order. */
  function IdsOf(env: KeyEnv, rows: seq<Row>, key: string): seq<string> {
    if rows == [] then []
    else
      var row := rows[|rows| - 1];
      IdsOf(env, rows[..|rows| - 1], key) + (if KeyOf(env, row) == Some(key) then [row.id] else [])
  }

  datatype Group = Group(key: string, ids: seq<string>)

  /** The groups of more than one, in the order their keys first occur. */
  function Collisions(env: KeyEnv, rows: seq<Row>, keys: seq<string>): seq<Group> {
    if keys == [] then []
    else
      var k := keys[|keys| - 1];
      var ids := IdsOf(env, rows, k);
      Collisions(env, rows, keys[..|keys| - 1]) + (if |ids| > 1 then [Group(k, ids)] else [])
  }

  datatype Report = Report(
    total: nat, unparseable: nat, alreadyKeyed: nat, keyed: nat, notDerivable: nat,
    collisions: seq<Group>, applied: bool)
  {
    function DuplicateBeads(): int { Extra(collisions) }
  }

  function Extra(groups: seq<Group>): int {
    if groups == [] then 0
    else Extra(groups[..|groups| - 1]) + |groups[|groups| - 1].ids| - 1
  }

  datatype Kind = BlankLine | Unparseable | AlreadyKeyed | Keyed | NotDerivable

  function KindOf(env: KeyEnv, row: Row): Kind {
    if row.Raw? then if row.blank then BlankLine else Unparseable
    else if ExistingKey(row).Some? then AlreadyKeyed
    else if DerivedKey(env, row).Some? then Keyed
    else NotDerivable
  }

  function CountOf(env: KeyEnv, rows: seq<Row>, kind: Kind): nat {
    if rows == [] then 0
    else CountOf(env, rows[..|rows| - 1], kind) + (if KindOf(env, rows[|rows| - 1]) == kind then 1 else 0)
  }

  /** Lines that are not blank. */
  function Lines(rows: seq<Row>): nat {
    if rows == [] then 0
    else
      var row := rows[|rows| - 1];
      Lines(rows[..|rows| - 1]) + (if row.Raw? && row.blank then 0 else 1)
  }

  function ReportOf(env: KeyEnv, rows: seq<Row>, apply: bool): Report {
    Report(
      Lines(rows),
      CountOf(env, rows, Unparseable),
      CountOf(env, rows, AlreadyKeyed),
      CountOf(env, rows, Keyed),
      CountOf(env, rows, NotDerivable),
      Collisions(env, rows, Dedup(KeysIn(env, rows))),
      apply)
  }

  /** The first id under a key that several rows carry. */
  function FirstHolder(env: KeyEnv, rows: seq<Row>, key: string): Option<string> {
    var ids := IdsOf(env, rows, key);
    if |ids| > 1 then Some(ids[0]) else None
  }

  function Stamp(row: Row, key: Option<string>, first: Option<string>): Row {
    if row.Raw? || key.None? then row
    else
      var meta := if row.metadata.Object? then row.metadata else Object(Absent, None, map[]);
      if meta.key == Text(key.value) && (first.None? || meta.duplicateOf.Some?) then row
      else
        var stamped := meta.(key := Text(key.value));
        row.(metadata :=
          if first.Some? && first.value != "" && row.id != first.value
          then stamped.(duplicateOf := first) else stamped)
  }

  function Stamped(env: KeyEnv, rows: seq<Row>, row: Row): Row {
    var key := KeyOf(env, row);
    Stamp(row, key, if key.Some? then FirstHolder(env, rows, key.value) else None)
  }

  function Backfilled(env: KeyEnv, rows: seq<Row>): (r: seq<Row>)
    ensures |r| == |rows| && forall i :: 0 <= i < |rows| ==> r[i] == Stamped(env, rows, rows[i])
  {
    seq(|rows|, i requires 0 <= i < |rows| => Stamped(env, rows, rows[i]))
  }

  // --- the two passes ---------------------------------------------------------------

  ghost predicate Grouped(env: KeyEnv, rows: seq<Row>, order: seq<string>, byKey: map<string, seq<string>>) {
    && order == Dedup(KeysIn(env, rows))
    && (forall k :: k in byKey <==> k in KeysIn(env, rows))
    && (forall k :: k in byKey ==> byKey[k] == IdsOf(env, rows, k))
  }

  lemma {:induction false} NoIds(env: KeyEnv, rows: seq<Row>, key: string)
    ensures key in KeysIn(env, rows) <==> IdsOf(env, rows, key) != []
  {
    if rows != [] {
      NoIds(env, rows[..|rows| - 1], key);
    }
  }

  lemma SnocKeys(env: KeyEnv, rows: seq<Row>, row: Row)
    ensures KeysIn(env, rows + [row])
         == if KeyOf(env, row).Some? then KeysIn(env, rows) + [KeyOf(env, row).value] else KeysIn(env, rows)
  {
    assert (rows + [row])[..|rows|] == rows;
    assert KeysIn(env, rows) + [] == KeysIn(env, rows);
  }

  lemma SnocIds(env: KeyEnv, rows: seq<Row>, row: Row, k: string)
    ensures IdsOf(env, rows + [row], k)
         == IdsOf(env, rows, k) + (if KeyOf(env, row) == Some(k) then [row.id] else [])
  {
    assert (rows + [row])[..|rows|] == rows;
  }

  /** Adds one keyed row to its group. */
  method AddToGroup(env: KeyEnv, ghost rows: seq<Row>, row: Row, order: seq<string>, byKey: map<string, seq<string>>)
    returns (longer: seq<string>, more: map<string, seq<string>>)
    requires Grouped(env, rows, order, byKey)
    ensures Grouped(env, rows + [row], longer, more)
  {
    longer, more := order, byKey;
    SnocKeys(env, rows, row);
    var key := KeyOf(env, row);
    if key.Some? {
      var k := key.value;
      var ids := if k in byKey then byKey[k] else [];
      NoIds(env, rows, k);
      DedupSnoc(KeysIn(env, rows), k);
      if k !in byKey {
        longer := order + [k];
      }
      more := byKey[k := ids + [row.id]];
    }
    forall k | k in more ensures more[k] == IdsOf(env, rows + [row], k) {
      SnocIds(env, rows, row, k);
    }
  }

  class Store {
    var rows: seq<Row>

    constructor (rows: seq<Row>)
      ensures this.rows == rows
    {
      this.rows := rows;
    }

    method Survey(env: KeyEnv) returns (order: seq<string>, byKey: map<string, seq<string>>, keys: seq<Option<string>>)
      ensures Grouped(env, rows, order, byKey)
      ensures |keys| == |rows| && forall i :: 0 <= i < |rows| ==> keys[i] == KeyOf(env, rows[i])
    {
      order, byKey, keys := [], map[], [];
      for i := 0 to |rows|
        invariant Grouped(env, rows[..i], order, byKey)
        invariant |keys| == i && forall k :: 0 <= k < i ==> keys[k] == KeyOf(env, rows[k])
      {
        assert rows[..i + 1] == rows[..i] + [rows[i]];
        order, byKey := AddToGroup(env, rows[..i], rows[i], order, byKey);
        keys := keys + [KeyOf(env, rows[i])];
      }
      assert rows[..|rows|] == rows;
    }

    method CountRows(env: KeyEnv) returns (total: nat, unparseable: nat, already: nat, keyed: nat, notDerivable: nat)
      ensures total == Lines(rows)
      ensures unparseable == CountOf(env, rows, Unparseable) && already == CountOf(env, rows, AlreadyKeyed)
      ensures keyed == CountOf(env, rows, Keyed) && notDerivable == CountOf(env, rows, NotDerivable)
    {
      total, unparseable, already, keyed, notDerivable := 0, 0, 0, 0, 0;
      for i := 0 to |rows|
        invariant total == Lines(rows[..i])
        invariant unparseable == CountOf(env, rows[..i], Unparseable) && already == CountOf(env, rows[..i], AlreadyKeyed)
        invariant keyed == CountOf(env, rows[..i], Keyed) && notDerivable == CountOf(env, rows[..i], NotDerivable)
      {
        var row := rows[i];
        assert rows[..i + 1][..i] == rows[..i];
        if !(row.Raw? && row.blank) {
          total := total + 1;
          if row.Raw? {
            unparseable := unparseable + 1;
          } else if ExistingKey(row).Some? {
            already := already + 1;
          } else if DerivedKey(env, row).Some? {
            keyed := keyed + 1;
          } else {
            notDerivable := notDerivable + 1;
          }
        }
      }
      assert rows[..|rows|] == rows;
    }

    /** Reports, and with `apply` stamps every row where a key is known. */
    method Backfill(env: KeyEnv, apply: bool) returns (report: Report)
      modifies this
      ensures report == ReportOf(env, old(rows), apply)
      ensures rows == if apply then Backfilled(env, old(rows)) else old(rows)
    {
      var order, byKey, keys := Survey(env);
      var total, unparseable, already, keyed, notDerivable := CountRows(env);
      var collisions := Collide(env, order, byKey);
      report := Report(total, unparseable, already, keyed, notDerivable, collisions, apply);
      if apply {
        rows := StampAll(env, byKey, keys);
      }
    }

    method Collide(env: KeyEnv, order: seq<string>, byKey: map<string, seq<string>>) returns (collisions: seq<Group>)
      requires Grouped(env, rows, order, byKey)
      ensures collisions == Collisions(env, rows, order)
    {
      collisions := [];
      for i := 0 to |order|
        invariant collisions == Collisions(env, rows, order[..i])
      {
        assert order[..i + 1][..i] == order[..i];
        assert order[i] in order;
        if |byKey[order[i]]| > 1 {
          collisions := collisions + [Group(order[i], byKey[order[i]])];
        }
      }
      assert order[..|order|] == order;
    }

    method StampAll(env: KeyEnv, byKey: map<string, seq<string>>, keys: seq<Option<string>>) returns (out: seq<Row>)
      requires forall k :: k in byKey <==> k in KeysIn(env, rows)
      requires forall k :: k in byKey ==> byKey[k] == IdsOf(env, rows, k)
      requires |keys| == |rows| && forall i :: 0 <= i < |rows| ==> keys[i] == KeyOf(env, rows[i])
      ensures out == Backfilled(env, rows)
    {
      out := [];
      for i := 0 to |rows|
        invariant |out| == i
        invariant forall k :: 0 <= k < i ==> out[k] == Stamped(env, rows, rows[k])
      {
        var key := keys[i];
        var first := if key.Some? && key.value in byKey && |byKey[key.value]| > 1 then Some(byKey[key.value][0]) else None;
        if key.Some? {
          KeyAmong(env, rows, i);
        }
        out := out + [Stamp(rows[i], key, first)];
      }
    }
  }

  lemma {:induction false} KeyAmong(env: KeyEnv, rows: seq<Row>, i: nat)
    requires i < |rows| && KeyOf(env, rows[i]).Some?
    ensures KeyOf(env, rows[i]).value in KeysIn(env, rows)
  {
    if i < |rows| - 1 {
      KeyAmong(env, rows[..|rows| - 1], i);
    }
  }

  // --- stamping twice ---------------------------------------------------------------

  lemma StampKeepsKey(env: KeyEnv, row: Row, first: Option<string>)
    ensures var after := Stamp(row, KeyOf(env, row), first);
      && KeyOf(env, after) == KeyOf(env, row)
      && Stamp(after, KeyOf(env, row), first) == after
      && (row.Good? ==> after.Good? && after.id == row.id)
      && (KeyOf(env, row).Some? ==> ExistingKey(after).Some?)
      && (KeyOf(env, row).None? ==> after == row)
  {
    if KeyOf(env, row).Some? && ExistingKey(row).None? {
      assert KeyOf(env, row).value[..3] == "ext";
    }
  }

  lemma {:induction false} SameIds(env: KeyEnv, a: seq<Row>, b: seq<Row>, key: string)
    requires |a| == |b|
    requires forall i :: 0 <= i < |a| ==> KeyOf(env, a[i]) == KeyOf(env, b[i]) && (a[i].Good? ==> b[i].Good? && a[i].id == b[i].id)
    ensures IdsOf(env, a, key) == IdsOf(env, b, key) && KeysIn(env, a) == KeysIn(env, b)
  {
    if a != [] {
      SameIds(env, a[..|a| - 1], b[..|b| - 1], key);
    }
  }

  /** Backfilling again changes no row. */
  lemma BackfillTwice(env: KeyEnv, rows: seq<Row>)
    ensures Backfilled(env, Backfilled(env, rows)) == Backfilled(env, rows)
  {
    var once := Backfilled(env, rows);
    KeysKept(env, rows);
    forall i | 0 <= i < |rows| ensures Stamped(env, once, once[i]) == once[i] {
      var key := KeyOf(env, rows[i]);
      StampKeepsKey(env, rows[i], if key.Some? then FirstHolder(env, rows, key.value) else None);
    }
    assert Backfilled(env, once) == once;
  }

  lemma KeysKept(env: KeyEnv, rows: seq<Row>)
    ensures forall i :: 0 <= i < |rows| ==> KeyOf(env, Backfilled(env, rows)[i]) == KeyOf(env, rows[i])
    ensures forall k :: IdsOf(env, Backfilled(env, rows), k) == IdsOf(env, rows, k)
    ensures KeysIn(env, Backfilled(env, rows)) == KeysIn(env, rows)
  {
    var once := Backfilled(env, rows);
    forall i | 0 <= i < |rows|
      ensures KeyOf(env, once[i]) == KeyOf(env, rows[i]) && (once[i].Good? ==> rows[i].Good? && once[i].id == rows[i].id)
    {
      var key := KeyOf(env, rows[i]);
      StampKeepsKey(env, rows[i], if key.Some? then FirstHolder(env, rows, key.value) else None);
    }
    forall k ensures IdsOf(env, once, k) == IdsOf(env, rows, k) {
      SameIds(env, once, rows, k);
    }
    SameIds(env, once, rows, "");
  }

  // --- what a stamped file says -----------------------------------------------------

  /** Each later holder of a shared key points at the first one or already
      pointed somewhere; rows without a key are untouched. */
  lemma BackfillMarks(env: KeyEnv, rows: seq<Row>, i: nat)
    requires i < |rows|
    ensures var before, after := rows[i], Backfilled(env, rows)[i]; var key := KeyOf(env, before);
      && (key.None? ==> after == before)
      && (key.Some? ==>
            && ExistingKey(after) == key
            && after == before.(metadata := after.metadata)
            && (before.metadata.Object? ==> after.metadata.others == before.metadata.others)
            && (var first := FirstHolder(env, rows, key.value);
                first.Some? && first.value != "" && before.id != first.value
                ==> after.metadata.duplicateOf.Some?
                    && ((before.metadata.Object? && before.metadata.duplicateOf.Some?) || after.metadata.duplicateOf == first)))
  {
    var key := KeyOf(env, rows[i]);
    if key.Some? {
      StampKeepsKey(env, rows[i], FirstHolder(env, rows, key.value));
    }
  }

  predicate Holds(env: KeyEnv, rows: seq<Row>, key: string, i: nat) {
    i < |rows| && KeyOf(env, rows[i]) == Some(key)
  }

  /** Row `m` is the first that carries the key. */
  ghost predicate FirstHolds(env: KeyEnv, rows: seq<Row>, key: string, m: nat) {
    Holds(env, rows, key, m) && forall j: nat :: j < m ==> !Holds(env, rows, key, j)
  }

  lemma {:induction false} NobodyHolds(env: KeyEnv, rows: seq<Row>, key: string)
    ensures IdsOf(env, rows, key) == [] <==> forall i: nat :: !Holds(env, rows, key, i)
  {
    if rows != [] {
      var front := rows[..|rows| - 1];
      NobodyHolds(env, front, key);
      assert forall i: nat :: Holds(env, front, key, i) ==> Holds(env, rows, key, i);
      assert KeyOf(env, rows[|front|]) == Some(key) <==> Holds(env, rows, key, |front|);
      forall i: nat | Holds(env, rows, key, i) ensures i == |front| || Holds(env, front, key, i) {
      }
    }
  }

  /** The ids under a key begin with its first holder's, and are several exactly
      when another row holds it too. */
  lemma {:induction false} FirstHolderIs(env: KeyEnv, rows: seq<Row>, key: string, m: nat)
    requires FirstHolds(env, rows, key, m)
    ensures var ids := IdsOf(env, rows, key);
      && ids != [] && ids[0] == rows[m].id
      && (|ids| > 1 <==> exists j: nat :: j != m && Holds(env, rows, key, j))
  {
    var front := rows[..|rows| - 1];
    assert forall j: nat :: j < |front| ==> (Holds(env, front, key, j) <==> Holds(env, rows, key, j));
    if m == |front| {
      NobodyHolds(env, front, key);
    } else {
      FirstHolderIs(env, front, key, m);
      assert Holds(env, rows, key, |front|) <==> KeyOf(env, rows[|front|]) == Some(key);
    }
  }

  /** What a stamped row says of its duplicate: that of the first holder, exactly when
      it is a later holder of a shared key, the first has an id to point at and is
      under another id, and the row did not come with both the key and a mark.
      Otherwise what it said before. */
  lemma MarkedIff(env: KeyEnv, rows: seq<Row>, i: nat, key: string, m: nat)
    requires Holds(env, rows, key, i) && FirstHolds(env, rows, key, m)
    ensures var before, after := rows[i], Backfilled(env, rows)[i];
      var mark := if before.metadata.Object? then before.metadata.duplicateOf else None;
      && after.metadata.Object? && after.metadata.key == Text(key)
      && after.metadata.duplicateOf ==
         if && (exists j: nat :: j != m && Holds(env, rows, key, j))
            && rows[m].id != "" && before.id != rows[m].id
            && !(ExistingKey(before) == Some(key) && mark.Some?)
         then Some(rows[m].id) else mark
  {
    FirstHolderIs(env, rows, key, m);
    assert Backfilled(env, rows)[i] == Stamp(rows[i], Some(key), FirstHolder(env, rows, key));
    StampMarks(env, rows[i], key, FirstHolder(env, rows, key));
  }

  lemma StampMarks(env: KeyEnv, row: Row, key: string, first: Option<string>)
    requires KeyOf(env, row) == Some(key)
    ensures var after := Stamp(row, Some(key), first); var mark := if row.metadata.Object? then row.metadata.duplicateOf else None;
      && after.Good? && after.metadata.Object? && after.metadata.key == Text(key)
      && after.metadata.duplicateOf ==
         if first.Some? && first.value != "" && row.id != first.value && !(ExistingKey(row) == Some(key) && mark.Some?) then first else mark
  {
    if ExistingKey(row).None? { assert key[..3] == "ext"; }
  }

  /** The backfill derives for a stored row the very key that filing it anew from
      its source and source id would. */
  lemma DerivedAsCreated(env: KeyEnv, row: Row)
    requires row.Good?
    ensures DerivedKey(env, row) ==
      match DeriveNaturalKey(env, KeyInputs(None, Some(row.source), Some(row.sourceId), None, None, None))
      case Ok(key) => key
      case Err(_) => None
  {
    ComponentDecides(env, Some(row.source), true);
    ComponentDecides(env, Some(row.sourceId), false);
  }

  // --- what the report adds up to ---------------------------------------------------

  /** Every row that is not blank is counted under exactly one heading. */
  lemma {:induction false} RowsAddUp(env: KeyEnv, rows: seq<Row>, apply: bool)
    ensures var r := ReportOf(env, rows, apply);
      r.total == r.unparseable + r.alreadyKeyed + r.keyed + r.notDerivable
    ensures var r := ReportOf(env, rows, apply);
      |KeysIn(env, rows)| == r.alreadyKeyed + r.keyed
  {
    if rows != [] {
      RowsAddUp(env, rows[..|rows| - 1], apply);
    }
  }

  function SumIds(env: KeyEnv, rows: seq<Row>, keys: seq<string>): nat {
    if keys == [] then 0
    else SumIds(env, rows, keys[..|keys| - 1]) + |IdsOf(env, rows, keys[|keys| - 1])|
  }

  lemma {:induction false} SumSnoc(env: KeyEnv, rows: seq<Row>, row: Row, keys: seq<string>)
    requires Distinct(keys)
    ensures SumIds(env, rows + [row], keys)
         == SumIds(env, rows, keys) + (if KeyOf(env, row).Some? && KeyOf(env, row).value in keys then 1 else 0)
  {
    if keys != [] {
      var front, k := keys[..|keys| - 1], keys[|keys| - 1];
      SnocIds(env, rows, row, k);
      SumSnoc(env, rows, row, front);
      assert forall x :: x in keys <==> x in front || x == k;
      assert k !in front;
    }
  }

  /** The groups partition the keyed rows. */
  lemma {:induction false} GroupsPartition(env: KeyEnv, rows: seq<Row>)
    ensures SumIds(env, rows, Dedup(KeysIn(env, rows))) == |KeysIn(env, rows)|
  {
    if rows != [] {
      var front, row := rows[..|rows| - 1], rows[|rows| - 1];
      var keys := Dedup(KeysIn(env, front));
      assert rows == front + [row];
      GroupsPartition(env, front);
      SnocKeys(env, front, row);
      SumSnoc(env, front, row, keys);
      var key := KeyOf(env, row);
      if key.Some? {
        DedupSnoc(KeysIn(env, front), key.value);
        if key.value !in keys {
          NewKeyAddsOne(env, front, row, keys);
        }
      }
    }
  }

  lemma NewKeyAddsOne(env: KeyEnv, rows: seq<Row>, row: Row, keys: seq<string>)
    requires KeyOf(env, row).Some? && KeyOf(env, row).value !in KeysIn(env, rows)
    ensures SumIds(env, rows + [row], keys + [KeyOf(env, row).value]) == SumIds(env, rows + [row], keys) + 1
  {
    var k := KeyOf(env, row).value;
    NoIds(env, rows, k);
    SnocIds(env, rows, row, k);
    assert (keys + [k])[..|keys|] == keys;
  }

  lemma {:induction false} ExtraIsSurplus(env: KeyEnv, rows: seq<Row>, keys: seq<string>)
    requires forall k :: k in keys ==> k in KeysIn(env, rows)
    ensures Extra(Collisions(env, rows, keys)) == SumIds(env, rows, keys) - |keys|
  {
    if keys != [] {
      var front, k := keys[..|keys| - 1], keys[|keys| - 1];
      ExtraIsSurplus(env, rows, front);
      NoIds(env, rows, k);
      var before := Collisions(env, rows, front);
      var group := Group(k, IdsOf(env, rows, k));
      assert (before + [group])[..|before|] == before;
      assert k in keys && before + [] == before;
    }
  }

  /** Duplicates are the keyed rows less the distinct keys among them. */
  lemma DuplicatesCounted(env: KeyEnv, rows: seq<Row>, apply: bool)
    ensures var r := ReportOf(env, rows, apply);
      r.DuplicateBeads() == r.alreadyKeyed + r.keyed - |Dedup(KeysIn(env, rows))|
  {
    GroupsPartition(env, rows);
    ExtraIsSurplus(env, rows, Dedup(KeysIn(env, rows)));
    RowsAddUp(env, rows, apply);
  }

  lemma {:induction false} CountsAfter(env: KeyEnv, a: seq<Row>, b: seq<Row>)
    requires |a| == |b|
    requires forall i :: 0 <= i < |a| ==> KindOf(env, b[i]) == if KindOf(env, a[i]) == Keyed then AlreadyKeyed else KindOf(env, a[i])
    ensures Lines(b) == Lines(a)
    ensures CountOf(env, b, AlreadyKeyed) == CountOf(env, a, AlreadyKeyed) + CountOf(env, a, Keyed)
    ensures CountOf(env, b, Keyed) == 0
    ensures CountOf(env, b, Unparseable) == CountOf(env, a, Unparseable)
    ensures CountOf(env, b, NotDerivable) == CountOf(env, a, NotDerivable)
  {
    if a != [] {
      CountsAfter(env, a[..|a| - 1], b[..|b| - 1]);
      var last := |a| - 1;
      assert KindOf(env, b[last]) == if KindOf(env, a[last]) == Keyed then AlreadyKeyed else KindOf(env, a[last]);
    }
  }

  lemma {:induction false} CollisionsAlike(env: KeyEnv, a: seq<Row>, b: seq<Row>, keys: seq<string>)
    requires forall k :: IdsOf(env, a, k) == IdsOf(env, b, k)
    ensures Collisions(env, a, keys) == Collisions(env, b, keys)
  {
    if keys != [] {
      CollisionsAlike(env, a, b, keys[..|keys| - 1]);
    }
  }

  /** A second run reports the same collisions, and every keyed row as already keyed. */
  lemma SecondReport(env: KeyEnv, rows: seq<Row>, apply: bool)
    ensures var r := ReportOf(env, rows, apply);
      ReportOf(env, Backfilled(env, rows), apply)
      == r.(alreadyKeyed := r.alreadyKeyed + r.keyed, keyed := 0)
  {
    var once := Backfilled(env, rows);
    KeysKept(env, rows);
    CollisionsAlike(env, once, rows, Dedup(KeysIn(env, rows)));
    forall i | 0 <= i < |rows|
      ensures KindOf(env, once[i]) == if KindOf(env, rows[i]) == Keyed then AlreadyKeyed else KindOf(env, rows[i])
    {
      var key := KeyOf(env, rows[i]);
      StampKeepsKey(env, rows[i], if key.Some? then FirstHolder(env, rows, key.value) else None);
    }
    CountsAfter(env, rows, once);
  }

  /** Exactly when a row that already carries a key is left as it is: no other row
      shares the key, or it is marked already, or it is the first holder, or the
      first holder has no id to point at. */
  lemma KeyedRowUnchangedIff(env: KeyEnv, rows: seq<Row>, i: nat)
    requires i < |rows| && ExistingKey(rows[i]).Some?
    ensures var first := FirstHolder(env, rows, ExistingKey(rows[i]).value);
      Backfilled(env, rows)[i] == rows[i] <==>
        first.None? || rows[i].metadata.duplicateOf.Some? || first.value == "" || rows[i].id == first.value
  {
    var first := FirstHolder(env, rows, ExistingKey(rows[i]).value);
    assert Backfilled(env, rows)[i] == Stamp(rows[i], ExistingKey(rows[i]), first);
  }

  /** Documented to leave keyed rows exactly as they are, the backfill marks the
      later holder of a key that two rows already carried. */
  lemma KeyedRowMayChange(env: KeyEnv, key: string)
    requires key != ""
    ensures var meta := Object(Text(key), None, map[]);
      var rows := [Good("a", "", "", meta, map[]), Good("b", "", "", meta, map[])];
      && ExistingKey(rows[1]) == Some(key)
      && Backfilled(env, rows)[1].metadata.duplicateOf == Some("a")
  {
    var meta := Object(Text(key), None, map[]);
    var a, b := Good("a", "", "", meta, map[]), Good("b", "", "", meta, map[]);
    SnocIds(env, [], a, key);
    SnocIds(env, [a], b, key);
    assert [] + [a] == [a] && [a] + [b] == [a, b];
  }
}
