/** The one writer of scope rows: what an import or a sync may change, and what only a person may. */
module ScopeWrites {
  import opened Common

  datatype EntityType = Person | Process | Device | ExternalService | Software | Facility | DataStore

  datatype Source = Manual | Workbook | Csv | Liongard | DattoRmm | Entra {
    predicate IsConnector() { Liongard? || DattoRmm? || Entra? }
  }

  datatype ScopeCategory = CuiAsset | Spa | Crma | Specialized | Esp | Csp | OutOfScope | Unclassified

  datatype EntityStatus = Active | Decommissioned | PendingApproval

  datatype Value = Null | Text(text: string) | Items(items: seq<string>) | Flag(flag: bool) {
    predicate Blank() { Null? || this == Text("") || this == Items([]) }
  }

  type Attributes = map<string, Value>

  /** What a writer sends, and what a row stores. */
  datatype Entity = Entity(kind: EntityType, key: string, attributes: Attributes, category: Option<ScopeCategory>,
                           status: EntityStatus, inBoundary: bool, source: Source, sourceRef: Option<string>)

  datatype WriteError = PendingApprovalWrite

  type RowKey = (EntityType, string)
  type Table = map<RowKey, Entity>

  const OVERLAY: set<string> := {"location", "in_service_date", "decommissioned_date", "requested_by"}

  const DEVICE_FIELDS: set<string> := {"make_oem", "model", "version", "device_subtype", "device_subtype_other",
      "asset_tag",
                                       "mac_addresses", "display_name", "last_login_user", "hostname"}

  const PERSON_FIELDS: set<string> := {"email", "display_name", "username", "enabled"}

  /** The fields a connector observes; who is responsible for a device is not among them. */
  function ConnectorFields(kind: EntityType): set<string> {
    if kind.Device? || kind.Software? then DEVICE_FIELDS else if kind.Person? then PERSON_FIELDS else {}
  }

  function Supplied(kind: EntityType, attributes: Attributes): set<string> {
    set k | k in ConnectorFields(kind) && k in attributes && !attributes[k].Blank()
  }

  // ---------------------------------------------------------------- what a write comes to

  /** An overlay key the write does not carry is kept; a sync carries none. */
  function Overlaid(existing: Attributes, e: Entity): Attributes {
    map k
      | k in e.attributes.Keys + (existing.Keys * OVERLAY) && (k !in OVERLAY || k in existing || !e.source.Liongard?) ::
      if k in OVERLAY && (e.source.Liongard? || k !in e.attributes) && k in existing then existing[k]
      else e.attributes[k]
  }

  function Merged(row: Entity, e: Entity): Attributes {
    if row.source != e.source then row.attributes + Overlaid(row.attributes, e) else Overlaid(row.attributes, e)
  }

  predicate Transcribes(row: Entity, e: Entity) {
    row.source.IsConnector() && !e.source.IsConnector()
  }

  function Guarded(row: Entity, e: Entity): Attributes {
    if Transcribes(row, e) then Merged(row, e) + (map k | k in Supplied(e.kind, row.attributes) :: row.attributes[k])
    else Merged(row, e)
  }

  /** An import or a sync written over a row. */
  function WrittenOver(row: Entity, e: Entity): Entity {
    Entity(e.kind, e.key, Guarded(row, e), if e.category.None? then row.category else e.category,
           if e.source.Liongard? || row.status.Decommissioned? then row.status else e.status, row.inBoundary,
           if Transcribes(row, e) then row.source
           else e.source, if Transcribes(row, e) then row.sourceRef else e.sourceRef)
  }

  /** operatorEdit is for a person editing the entity directly: what they send is what is stored. */
  function Upserted(table: Table, e: Entity, operatorEdit: bool): Result<Table, WriteError> {
    var key := (e.kind, e.key);
    if e.status.PendingApproval? || (key in table && table[key].status.PendingApproval?) then Err(PendingApprovalWrite)
    else if operatorEdit then Ok(table[key := e])
    else if key in table then Ok(table[key := WrittenOver(table[key], e)])
    else Ok(table[key := e.(attributes := Overlaid(map[], e))])
  }

  // ---------------------------------------------------------------- as it runs

  class ScopeTable {
    var rows: Table

    constructor ()
      ensures rows == map[]
    {
      rows := map[];
    }

    method Upsert(e: Entity, operatorEdit: bool) returns (error: Option<WriteError>)
      modifies this
      ensures error.None? ==> Upserted(old(rows), e, operatorEdit) == Ok(rows)
      ensures error.Some? ==> Upserted(old(rows), e, operatorEdit) == Err(error.value) && rows == old(rows)
    {
      var key := (e.kind, e.key);
      if e.status.PendingApproval? || (key in rows && rows[key].status.PendingApproval?) {
        return Some(PendingApprovalWrite);
      }
      var row := if key in rows then Some(rows[key]) else None;
      var attributes, source, sourceRef := e.attributes, e.source, e.sourceRef;
      var category, status, inBoundary := e.category, e.status, e.inBoundary;
      if !operatorEdit {
        var existing := if row.Some? then row.value.attributes else map[];
        attributes := Overlay(existing, e);
        if row.Some? {
          if row.value.source != e.source {
            attributes := existing + attributes;
          }
          if row.value.source.IsConnector() && !e.source.IsConnector() {
            attributes := Protect(attributes, existing, Supplied(e.kind, existing));
            source, sourceRef := row.value.source, row.value.sourceRef;
          }
          if category.None? {
            category := row.value.category;
          }
          inBoundary := row.value.inBoundary;
          if e.source.Liongard? || row.value.status.Decommissioned? {
            status := row.value.status;
          }
        }
      }
      rows := rows[key := Entity(e.kind, e.key, attributes, category, status, inBoundary, source, sourceRef)];
      error := None;
    }

    method Overlay(existing: Attributes, e: Entity) returns (attributes: Attributes)
      ensures attributes == Overlaid(existing, e)
    {
      attributes := e.attributes;
      var todo := OVERLAY;
      while todo != {}
        invariant todo <= OVERLAY
        invariant forall k :: k in OVERLAY - todo ==> (k in attributes <==> k in Overlaid(existing, e))
        invariant forall k :: k in OVERLAY - todo && k in attributes ==> attributes[k] == Overlaid(existing, e)[k]
        invariant forall k :: k !in OVERLAY - todo ==> (k in attributes <==> k in e.attributes)
        invariant forall k :: k !in OVERLAY - todo && k in attributes ==> attributes[k] == e.attributes[k]
        decreases todo
      {
        var key :| key in todo;
        if e.source.Liongard? {
          attributes := attributes - {key};
        }
        if key !in attributes && key in existing {
          attributes := attributes[key := existing[key]];
        }
        todo := todo - {key};
      }
    }

    method Protect(attributes: Attributes, existing: Attributes, keys: set<string>) returns (protected: Attributes)
      requires keys <= existing.Keys
      ensures protected == attributes + (map k | k in keys :: existing[k])
    {
      protected := attributes;
      var todo := keys;
      while todo != {}
        invariant todo <= keys
        invariant protected == attributes + (map k | k in keys - todo :: existing[k])
        decreases todo
      {
        var key :| key in todo;
        protected := protected[key := existing[key]];
        todo := todo - {key};
      }
    }
  }

  // ---------------------------------------------------------------- what is stored

  ghost predicate FromConnector(source: Source) {
    source == Liongard || source == DattoRmm || source == Entra
  }

  /** A value a connector gave for a field that connectors observe. */
  ghost predicate Observed(kind: EntityType, row: Entity, k: string) {
    && FromConnector(row.source) && k in row.attributes
    && row.attributes[k] != Null && row.attributes[k] != Text("") && row.attributes[k] != Items([])
    && ((kind == Device || kind == Software) ==> k in DEVICE_FIELDS)
    && (kind == Person ==> k in PERSON_FIELDS)
    && (kind == Device || kind == Software || kind == Person)
  }

  /** A write speaks for what it carries, but a Liongard sync not for what only a person knows. */
  ghost predicate SpeaksFor(e: Entity, k: string) {
    k in e.attributes && !(e.source == Liongard && k in OVERLAY)
  }

  /** One attribute after a write over a row: what a connector observed stands against anyone else; then what
      the write carries; then what the row had, if a source of another kind wrote it or a person alone knows
      it; and nothing otherwise. */
  ghost predicate StoredAt(row: Entity, e: Entity, k: string, after: Option<Value>) {
    if Observed(e.kind, row, k) && !FromConnector(e.source) then after == Some(row.attributes[k])
    else if SpeaksFor(e, k) then after == Some(e.attributes[k])
    else if k in row.attributes && (row.source != e.source || k in OVERLAY) then after == Some(row.attributes[k])
    else after == None
  }

  ghost predicate AttributesStored(row: Entity, e: Entity, after: Attributes) {
    forall k :: StoredAt(row, e, k, if k in after then Some(after[k]) else None)
  }

  /** A row after an import or a sync was written over it. */
  ghost predicate RowStored(row: Entity, e: Entity, after: Entity) {
    && after.kind == e.kind && after.key == e.key && AttributesStored(row, e, after.attributes)
    && after.category == (if e.category == None then row.category else e.category)
    && after.status == (if e.source == Liongard || row.status == Decommissioned then row.status else e.status)
    && after.inBoundary == row.inBoundary
    && (if FromConnector(row.source) && !FromConnector(e.source)
        then after.source == row.source && after.sourceRef == row.sourceRef
        else after.source == e.source && after.sourceRef == e.sourceRef)
  }

  /** A row nobody had written: as sent, without what a Liongard sync does not speak for. */
  ghost predicate FirstStored(e: Entity, after: Entity) {
    && after == e.(attributes := after.attributes)
    && (forall k :: k in after.attributes <==> SpeaksFor(e, k))
    && (forall k :: k in after.attributes ==> after.attributes[k] == e.attributes[k])
  }

  lemma OverlaidStores(row: Entity, e: Entity)
    ensures AttributesStored(row, e, Guarded(row, e))
  {
    forall k
      ensures StoredAt(row, e, k, if k in Guarded(row, e) then Some(Guarded(row, e)[k]) else None)
    {
      assert k in Supplied(e.kind, row.attributes) && row.source.IsConnector() <==> Observed(e.kind, row, k);
    }
  }

  /** What a write stores, of whatever kind: refused only for a pending status, sent or stored; a person's edit
      as sent; over a row as above; and no other row touched. */
  lemma UpsertStores(table: Table, e: Entity, operatorEdit: bool)
    ensures var r, key := Upserted(table, e, operatorEdit), (e.kind, e.key);
            if e.status == PendingApproval || (key in table && table[key].status == PendingApproval)
            then r == Err(PendingApprovalWrite)
            else
              && r.Ok? && key in r.value && r.value == table[key := r.value[key]]
              && if operatorEdit then r.value[key] == e
                 else if key in table then RowStored(table[key], e, r.value[key])
                 else FirstStored(e, r.value[key])
  {
    var key := (e.kind, e.key);
    if key in table {
      OverlaidStores(table[key], e);
    }
  }

  // ---------------------------------------------------------------- any sequence of imports and syncs

  /** A write that is refused changes nothing. */
  function Write(table: Table, e: Entity): Table {
    var r := Upserted(table, e, false);
    if r.Ok? then r.value else table
  }

  function WriteAll(table: Table, writes: seq<Entity>): Table {
    if writes == [] then table else Write(WriteAll(table, writes[..|writes| - 1]), writes[|writes| - 1])
  }

  /** What only a person decides: boundary, coming back into service, and taking a category away. */
  ghost predicate PersonsDecisionsStand(before: Entity, after: Entity) {
    && after.inBoundary == before.inBoundary
    && (before.status.Decommissioned? ==> after.status.Decommissioned?)
    && (before.category.Some? ==> after.category.Some?)
  }

  /** What a connector observed, and that it was the connector's. */
  ghost predicate ObservationsStand(kind: EntityType, before: Entity, after: Entity) {
    && after.source == before.source && after.sourceRef == before.sourceRef
    && forall k :: k in Supplied(kind, before.attributes)
        ==> k in after.attributes && after.attributes[k] == before.attributes[k]
  }

  /** What a person alone knows of an entity, under one key. */
  function OverlayAt(e: Entity, k: string): Option<Value> {
    if k in e.attributes then Some(e.attributes[k]) else None
  }

  lemma {:induction false} DecisionsStandOverRuns(table: Table, writes: seq<Entity>, key: RowKey)
    requires key in table
    ensures key in WriteAll(table, writes) && PersonsDecisionsStand(table[key], WriteAll(table, writes)[key])
  {
    if writes != [] {
      DecisionsStandOverRuns(table, writes[..|writes| - 1], key);
    }
  }

  lemma ObservationsStandOnce(table: Table, e: Entity, key: RowKey)
    requires key in table && table[key].source.IsConnector() && !e.source.IsConnector()
    ensures key in Write(table, e) && ObservationsStand(key.0, table[key], Write(table, e)[key])
  {
  }

  /** No number of workbooks and hand-made lists takes a connector's value away, or its name off the row. */
  lemma {:induction false} ObservationsStandOverRuns(table: Table, writes: seq<Entity>, key: RowKey)
    requires key in table && table[key].source.IsConnector()
    requires forall i :: 0 <= i < |writes| ==> !writes[i].source.IsConnector()
    ensures key in WriteAll(table, writes) && ObservationsStand(key.0, table[key], WriteAll(table, writes)[key])
  {
    if writes != [] {
      var before := WriteAll(table, writes[..|writes| - 1]);
      ObservationsStandOverRuns(table, writes[..|writes| - 1], key);
      ObservationsStandOnce(before, writes[|writes| - 1], key);
      assert Supplied(key.0, table[key].attributes) <= Supplied(key.0, before[key].attributes);
    }
  }

  /** A write to the row that a person's own knowledge under k may come from. */
  predicate Carries(e: Entity, key: RowKey, k: string) {
    (e.kind, e.key) == key && !e.source.Liongard? && k in e.attributes
  }

  lemma OverlayStandsOnce(table: Table, e: Entity, key: RowKey, k: string)
    requires key in table && k in OVERLAY && !Carries(e, key, k)
    requires Supplied(key.0, table[key].attributes) !! OVERLAY
    ensures key in Write(table, e) && OverlayAt(Write(table, e)[key], k) == OverlayAt(table[key], k)
  {
  }

  lemma ConnectorsSupplyNoOverlay(kind: EntityType, attributes: Attributes)
    ensures Supplied(kind, attributes) !! OVERLAY
  {
  }

  /** An overlay value changes only by a write, not a sync, that itself carries that key. */
  lemma {:induction false} OverlayStandsOverRuns(table: Table, writes: seq<Entity>, key: RowKey, k: string)
    requires key in table && k in OVERLAY
    requires forall i :: 0 <= i < |writes| ==> !Carries(writes[i], key, k)
    ensures key in WriteAll(table, writes) && OverlayAt(WriteAll(table, writes)[key], k) == OverlayAt(table[key], k)
  {
    if writes != [] {
      var before := WriteAll(table, writes[..|writes| - 1]);
      OverlayStandsOverRuns(table, writes[..|writes| - 1], key, k);
      ConnectorsSupplyNoOverlay(key.0, before[key].attributes);
      OverlayStandsOnce(before, writes[|writes| - 1], key, k);
    }
  }

  ghost predicate NonePending(table: Table) {
    forall key :: key in table ==> !table[key].status.PendingApproval? && (table[key].kind, table[key].key) == key
  }

  /** Nothing stores a pending status, a person's edit included. */
  lemma PendingNeverStored(table: Table, e: Entity, operatorEdit: bool)
    requires NonePending(table)
    ensures var r := Upserted(table, e, operatorEdit);
            (r.Ok? ==> NonePending(r.value)) && (r.Err? <==> e.status.PendingApproval?)
  {
  }
}
