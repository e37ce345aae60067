/** A product's published baseline: immutable versions, each a list of rows saying which
    objectives of which practice the product covers. */
module Baseline {
  import opened Common
  import opened Rules

  type VersionId = nat
  type SpecId = nat

  datatype CoverageBasis = CustomerSystem | PlatformOnly | Assists

  /** One artifact the row asks for. */
  datatype EvidenceSpec = EvidenceSpec(id: SpecId, description: string, kind: string)

  datatype BaselineRow = BaselineRow(control: ControlId, objectives: seq<string>, classification: Classification,
                                     basis: CoverageBasis, specs: seq<EvidenceSpec>)
  {
    /** Rows the vendor disclaims, or that cover only the vendor's own platform, claim nothing. */
    predicate Counts() {
      !classification.CustomerOwns? && !basis.PlatformOnly?
    }

    predicate Claims(o: Objective) {
      Counts() && o.control == control && o.key in objectives
    }
  }

  datatype BaselineVersion = BaselineVersion(product: ProductId, number: nat, rows: seq<BaselineRow>)

  datatype Product = Product(published: bool, current: Option<VersionId>)

  datatype Library = Library(products: map<ProductId, Product>, versions: map<VersionId, BaselineVersion>) {

    function RowsOf(v: VersionId): seq<BaselineRow> {
      if v in versions then versions[v].rows else []
    }

    /** What the database's unique constraints hold: one row per practice in a version. */
    ghost predicate Valid() {
      && (forall v :: v in versions ==> OneRowPerPractice(versions[v].rows))
      && (forall p :: p in products && products[p].current.Some?
                      ==> products[p].current.value in versions && versions[products[p].current.value].product == p)
    }

    function SpecsOfProduct(p: ProductId): set<SpecId> {
      set v, id | v in versions && versions[v].product == p && id in SpecIds(versions[v].rows) :: id
    }
  }

  /** A library only grows: publishing and re-importing never change a version already there. */
  ghost predicate Grows(before: Library, after: Library) {
    && after.Valid()
    && before.products.Keys <= after.products.Keys
    && forall v :: v in before.versions ==> v in after.versions && after.versions[v] == before.versions[v]
  }

  ghost predicate OneRowPerPractice(rows: seq<BaselineRow>) {
    && (forall i, j :: 0 <= i < j < |rows| ==> rows[i].control != rows[j].control)
    && (forall i :: 0 <= i < |rows| ==> Distinct(rows[i].objectives))
  }

  function SpecIds(rows: seq<BaselineRow>): set<SpecId> {
    set r, s | r in rows && s in r.specs :: s.id
  }

  /** The row of these that claims the objective, if one does. */
  function Claim(rows: seq<BaselineRow>, o: Objective): (c: Option<BaselineRow>)
    ensures c.Some? ==> c.value in rows && c.value.Claims(o)
    ensures c.None? ==> forall r :: r in rows ==> !r.Claims(o)
  {
    if rows == [] then None
    else if rows[0].Claims(o) then Some(rows[0])
    else Claim(rows[1..], o)
  }

  /** With one row per practice there is no choice about which row claims an objective. */
  lemma TheClaim(rows: seq<BaselineRow>, r: BaselineRow, o: Objective)
    requires OneRowPerPractice(rows) && r in rows && r.Claims(o)
    ensures Claim(rows, o) == Some(r)
  {
    var c := Claim(rows, o).value;
    var i :| 0 <= i < |rows| && rows[i] == c;
    var j :| 0 <= j < |rows| && rows[j] == r;
  }
}
