/** The user-administration page (src/pages/Admins.js): the store ids of a
    user record, which arrive as nothing, one id or a list, normalised for the
    edit form, the submitted payload, the "Magasins" column and the detail
    view, and the shortened id column. */
module Admins {
  import opened Wrappers
  import opened Seqs
  import opened Text
  import opened Domain

  /** A user record's `magasinId`: missing (`null`/`undefined`), a single id
      or an array of ids. */
  datatype StoreIds = Missing | Single(id: string) | Many(ids: seq<string>)

  /** JavaScript truthiness of the field: an array is truthy even when empty,
      an empty id string is falsy. */
  predicate Truthy(v: StoreIds)
  {
    match v
    case Missing => false
    case Single(id) => id != ""
    case Many(_) => true
  }

  /** The edit form's normalisation: falsy becomes `[]`, an array is kept, a
      single id becomes a one-element list. */
  function NormaliseForm(v: StoreIds): (ids: seq<string>)
    ensures v.Many? ==> ids == v.ids
    ensures v.Single? && v.id != "" ==> ids == [v.id]
    ensures !Truthy(v) ==> ids == []
  {
    if !Truthy(v) then []
    else if v.Many? then v.ids
    else [v.id]
  }

  /** The column render's normalisation, written with the tests the other way
      round: array first, then truthiness. */
  function NormaliseColumn(v: StoreIds): (ids: seq<string>)
    ensures v.Many? ==> ids == v.ids
    ensures !v.Many? ==> |ids| <= 1 && (ids != [] <==> Truthy(v))
    ensures v.Single? && ids != [] ==> ids == [v.id]
  {
    if v.Many? then v.ids
    else if Truthy(v) then [v.id]
    else []
  }

  /** The two normalisations agree on every input. */
  lemma NormalisationsAgree(v: StoreIds)
    ensures NormaliseColumn(v) == NormaliseForm(v)
  {
  }

  /** Normalising an already normalised value changes nothing. */
  lemma NormaliseIdempotent(v: StoreIds)
    ensures NormaliseForm(Many(NormaliseForm(v))) == NormaliseForm(v)
  {
  }

  /** `values.magasinId || []`: the multi-select's value, or no stores. */
  function PayloadStores(formValue: Option<seq<string>>): (ids: seq<string>)
    ensures formValue.Some? ==> ids == formValue.value
    ensures formValue.None? ==> ids == []
  {
    formValue.GetOr([])
  }

  /** Opening a record in the form and submitting it unchanged sends the
      normalised store list. */
  lemma EditSubmitsNormalised(v: StoreIds)
    ensures PayloadStores(Some(NormaliseForm(v))) == NormaliseForm(v)
    ensures Truthy(v) && v.Single? ==> PayloadStores(Some(NormaliseForm(v))) == [v.id]
  {
  }

  /** `stores.find(s => s._id === id)`: the first store with that id. */
  function FindStore(stores: seq<Store>, id: string): (r: Option<Store>)
    ensures r.Some? ==> r.value in stores && r.value.id == id
    ensures r.None? <==> forall s :: s in stores ==> s.id != id
    ensures r.Some? ==>
      exists i :: (0 <= i < |stores| && stores[i] == r.value
                   && forall j :: 0 <= j < i ==> stores[j].id != id)
  {
    if |stores| == 0 then None
    else if stores[0].id == id then Some(stores[0])
    else
      var r := FindStore(stores[1..], id);
      if r.Some? then
        assert forall j :: 1 <= j < |stores| ==> stores[j] == stores[1..][j - 1];
        r
      else r
  }

  function IsKnown(stores: seq<Store>): string -> bool
  {
    id => FindStore(stores, id).Some?
  }

  function StoreName(stores: seq<Store>): string -> string
  {
    id => match FindStore(stores, id) case Some(s) => s.nom case None => ""
  }

  /** The tags `ids.map(...)` renders: the name of each id's store, ids without
      a store rendering nothing. */
  function StoreTags(ids: seq<string>, stores: seq<Store>): (names: seq<string>)
    ensures |names| <= |ids|
    ensures forall n :: n in names ==> exists s :: s in stores && s.nom == n
  {
    if |ids| == 0 then []
    else
      var init := StoreTags(ids[..|ids| - 1], stores);
      match FindStore(stores, ids[|ids| - 1])
      case Some(s) => init + [s.nom]
      case None => init
  }

  /** The tags are the names of the known ids, in order: unknown ids are
      dropped and nothing else is. */
  lemma {:induction false} StoreTagsAreKnownNames(ids: seq<string>, stores: seq<Store>)
    ensures StoreTags(ids, stores) == Map(Filter(ids, IsKnown(stores)), StoreName(stores))
    decreases |ids|
  {
    if |ids| > 0 {
      var init := ids[..|ids| - 1];
      var last := ids[|ids| - 1];
      StoreTagsAreKnownNames(init, stores);
      var known := Filter(init, IsKnown(stores));
      if IsKnown(stores)(last) {
        assert Filter(ids, IsKnown(stores)) == known + [last];
        assert Map(known + [last], StoreName(stores))[..|known|] == Map(known, StoreName(stores));
      }
    }
  }

  /** What the "Magasins assignés" cell shows. */
  datatype StoreCell = Unassigned | Tags(names: seq<string>)

  /** The "Magasins" column: "Non assigné" when the normalised list is empty. */
  function ColumnCell(v: StoreIds, stores: seq<Store>): (c: StoreCell)
    ensures c == Unassigned <==> NormaliseForm(v) == []
  {
    var ids := NormaliseColumn(v);
    if |ids| > 0 then Tags(StoreTags(ids, stores)) else Unassigned
  }

  /** The detail view: "Non assigné" only when the field is falsy. */
  function DetailCell(v: StoreIds, stores: seq<Store>): (c: StoreCell)
    ensures c == Unassigned <==> !Truthy(v)
  {
    if Truthy(v) then Tags(StoreTags(if v.Many? then v.ids else [v.id], stores)) else Unassigned
  }

  /** The column and the detail view disagree on exactly one input: an empty
      list, which the column shows as "Non assigné" and the detail view as no
      tags at all. */
  lemma CellsDisagreeOnlyOnEmptyList(v: StoreIds, stores: seq<Store>)
    ensures ColumnCell(v, stores) != DetailCell(v, stores) <==> v == Many([])
    ensures v == Many([]) ==> ColumnCell(v, stores) == Unassigned && DetailCell(v, stores) == Tags([])
  {
  }

  /** The status tag of the detail view. */
  function ActivityTag(status: string): (t: (string, string))
    ensures t.0 == "success" <==> status == "active"
    ensures t.1 == "Actif" <==> status == "active"
    ensures status != "active" ==> t == ("error", "Inactif")
  {
    if status == "active" then ("success", "Actif") else ("error", "Inactif")
  }

  /** The "ID" column: `id.substring(0, 8)` followed by "...". */
  function ShortId(id: string): (s: string)
    ensures |s| == (if |id| < 8 then |id| else 8) + 3
    ensures StartsWith(id, s[..|s| - 3]) && s[|s| - 3..] == "..."
  {
    var n := if |id| < 8 then |id| else 8;
    assert (id[..n] + "...")[..n] == id[..n];
    id[..n] + "..."
  }

  /** Two ids display the same exactly when their first eight characters
      agree: the column cannot tell apart ids that differ only later. */
  lemma ShortIdSeesEightCharacters(a: string, b: string)
    ensures ShortId(a) == ShortId(b) <==>
      a[..(if |a| < 8 then |a| else 8)] == b[..(if |b| < 8 then |b| else 8)]
  {
    var pa := a[..(if |a| < 8 then |a| else 8)];
    var pb := b[..(if |b| < 8 then |b| else 8)];
    if ShortId(a) == ShortId(b) {
      assert |pa| == |pb|;
      assert pa == ShortId(a)[..|pa|];
      assert pb == ShortId(b)[..|pb|];
    }
  }
}
