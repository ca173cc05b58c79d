/** The product form's per-store quantity editor
    (src/pages/Modals/ProduitModalAddEdit.js): the rows it starts from, adding,
    removing and editing a row, the image upload check, and the quantities it
    submits. */
module ProductForm {
  import opened Wrappers
  import opened Seqs
  import opened Text
  import opened Domain

  /** One quantity row: the store it is for and the three counters. A counter
      the user clears in its number input becomes `null`, here `None`. */
  datatype QuantityRow = QuantityRow(
    magasinId: Option<string>,
    quantiteInitiale: Option<real>,
    quantiteVendue: Option<real>,
    quantitePerdue: Option<real>)

  datatype FormMode = Create | Edit

  /** The product being edited; `quantite` may be missing from the record. */
  datatype ProductRecord = ProductRecord(quantite: Option<seq<QuantityRow>>)

  /** The rows the form starts from: the record's rows (or none) when editing
      an existing record, no rows otherwise. */
  function InitialRows(mode: FormMode, record: Option<ProductRecord>): (rows: seq<QuantityRow>)
    ensures mode == Edit && record.Some? && record.value.quantite.Some? ==> rows == record.value.quantite.value
    ensures !(mode == Edit && record.Some?) || record.value.quantite.None? ==> rows == []
  {
    if mode == Edit && record.Some? then record.value.quantite.GetOr([]) else []
  }

  /** `handleAddMagasin`: a new row with all three counters at 0, for the
      account's first store when it is a "user" account. */
  function AddRow(rows: seq<QuantityRow>, account: Account): (r: seq<QuantityRow>)
    ensures |r| == |rows| + 1 && r[..|rows|] == rows
    ensures r[|rows|].quantiteInitiale == Some(0.0)
    ensures r[|rows|].quantiteVendue == Some(0.0)
    ensures r[|rows|].quantitePerdue == Some(0.0)
    ensures r[|rows|].magasinId.Some? <==> IsStoreUser(account) && |account.stores| > 0
    ensures r[|rows|].magasinId.Some? ==> r[|rows|].magasinId.value == account.stores[0]
  {
    var store := if IsStoreUser(account) && |account.stores| > 0 then Some(account.stores[0]) else None;
    rows + [QuantityRow(store, Some(0.0), Some(0.0), Some(0.0))]
  }

  /** `quantities.filter((_, i) => i !== index)`, element by element. */
  function RemoveRow<T>(rows: seq<T>, index: int): (r: seq<T>)
    ensures |r| == if 0 <= index < |rows| then |rows| - 1 else |rows|
    ensures forall x :: x in r ==> x in rows
  {
    if |rows| == 0 then []
    else
      var init := RemoveRow(rows[..|rows| - 1], index);
      if |rows| - 1 != index then init + [rows[|rows| - 1]] else init
  }

  /** Removing drops exactly position `index` and keeps the order of the rest;
      an index that names no row removes nothing. */
  lemma {:induction false} RemoveRowIsSlice<T>(rows: seq<T>, index: int)
    ensures 0 <= index < |rows| ==> RemoveRow(rows, index) == rows[..index] + rows[index + 1..]
    ensures !(0 <= index < |rows|) ==> RemoveRow(rows, index) == rows
    decreases |rows|
  {
    if |rows| > 0 {
      var init := rows[..|rows| - 1];
      RemoveRowIsSlice(init, index);
      if index == |rows| - 1 {
        assert rows[..index] == init;
        assert rows[index + 1..] == [];
      } else if 0 <= index < |rows| - 1 {
        assert init[..index] == rows[..index];
        assert init[index + 1..] + [rows[|rows| - 1]] == rows[index + 1..];
      } else {
        assert init + [rows[|rows| - 1]] == rows;
      }
    }
  }

  /** Adding a row and then removing it gives back the rows one started with. */
  lemma RemoveUndoesAdd(rows: seq<QuantityRow>, account: Account)
    ensures RemoveRow(AddRow(rows, account), |rows|) == rows
  {
    RemoveRowIsSlice(AddRow(rows, account), |rows|);
  }

  /** The field a change targets, with the new value. */
  datatype RowEdit =
    | SetStore(store: Option<string>)
    | SetInitial(initial: Option<real>)
    | SetSold(sold: Option<real>)
    | SetLost(lost: Option<real>)

  function ApplyRowEdit(row: QuantityRow, e: RowEdit): QuantityRow
  {
    match e
    case SetStore(v) => row.(magasinId := v)
    case SetInitial(v) => row.(quantiteInitiale := v)
    case SetSold(v) => row.(quantiteVendue := v)
    case SetLost(v) => row.(quantitePerdue := v)
  }

  /** `handleQuantityChange(index, field, value)` on a row the table shows. */
  function ChangeRow(rows: seq<QuantityRow>, index: nat, e: RowEdit): (r: seq<QuantityRow>)
    requires index < |rows|
    ensures |r| == |rows|
    ensures forall i :: 0 <= i < |rows| && i != index ==> r[i] == rows[i]
    ensures e.SetStore? ==> r[index] == rows[index].(magasinId := e.store)
    ensures e.SetInitial? ==> r[index] == rows[index].(quantiteInitiale := e.initial)
    ensures e.SetSold? ==> r[index] == rows[index].(quantiteVendue := e.sold)
    ensures e.SetLost? ==> r[index] == rows[index].(quantitePerdue := e.lost)
  {
    rows[index := ApplyRowEdit(rows[index], e)]
  }

  /** Two changes of the same field of the same row: the last one wins. */
  lemma LastChangeWins(rows: seq<QuantityRow>, index: nat, e1: RowEdit, e2: RowEdit)
    requires index < |rows|
    requires e1.SetStore? == e2.SetStore? && e1.SetInitial? == e2.SetInitial?
    requires e1.SetSold? == e2.SetSold? && e1.SetLost? == e2.SetLost?
    ensures ChangeRow(ChangeRow(rows, index, e1), index, e2) == ChangeRow(rows, index, e2)
  {
  }

  /** The two-megabyte limit in bytes. */
  const MaxImageBytes: nat := 2 * 1024 * 1024

  const NotAnImage := "Vous ne pouvez uploader que des fichiers images!"
  const TooLarge := "L'image doit être inférieure à 2MB!"

  datatype UploadCheck = UploadCheck(accept: bool, errors: seq<string>)

  /** `beforeUpload`: the MIME type must start with "image/" and the size in
      megabytes (`size / 1024 / 1024`) must be below 2. Each failed condition
      raises its own message. */
  function BeforeUpload(mime: string, size: nat): (r: UploadCheck)
    ensures r.accept <==> StartsWith(mime, "image/") && size < MaxImageBytes
    ensures NotAnImage in r.errors <==> !StartsWith(mime, "image/")
    ensures TooLarge in r.errors <==> size >= MaxImageBytes
  {
    var isImage := StartsWith(mime, "image/");
    var isLt2M := size as real / 1024.0 / 1024.0 < 2.0;
    assert isLt2M <==> size < MaxImageBytes;
    UploadCheck(
      isImage && isLt2M,
      (if isImage then [] else [NotAnImage]) + (if isLt2M then [] else [TooLarge]))
  }

  /** A quantity as submitted. */
  datatype PayloadRow = PayloadRow(magasinId: Option<string>, quantiteInitiale: real, quantiteVendue: real, quantitePerdue: real)

  /** `Number(v)` for the values a number input produces: a cleared input
      (`null`) becomes 0. */
  function ToNumber(v: Option<real>): (x: real)
    ensures v.Some? ==> x == v.value
    ensures v.None? ==> x == 0.0
  {
    v.GetOr(0.0)
  }

  function ToPayloadRow(q: QuantityRow): PayloadRow
  {
    PayloadRow(q.magasinId, ToNumber(q.quantiteInitiale), ToNumber(q.quantiteVendue), ToNumber(q.quantitePerdue))
  }

  /** `quantities.map(q => ({...q, <three fields>: Number(...)}))`. */
  function PayloadRows(rows: seq<QuantityRow>): (p: seq<PayloadRow>)
    ensures |p| == |rows|
    ensures forall i :: 0 <= i < |rows| ==> p[i].magasinId == rows[i].magasinId
    ensures forall i :: 0 <= i < |rows| ==>
      (rows[i].quantiteInitiale.Some? ==> p[i].quantiteInitiale == rows[i].quantiteInitiale.value)
    ensures forall i :: 0 <= i < |rows| ==>
      (rows[i].quantiteVendue.Some? ==> p[i].quantiteVendue == rows[i].quantiteVendue.value)
    ensures forall i :: 0 <= i < |rows| ==>
      (rows[i].quantitePerdue.Some? ==> p[i].quantitePerdue == rows[i].quantitePerdue.value)
  {
    Map(rows, ToPayloadRow)
  }

  /** Submitting after adding a row submits the earlier rows unchanged and
      then a row of zeros. */
  lemma PayloadOfAddedRow(rows: seq<QuantityRow>, account: Account)
    ensures var p := PayloadRows(AddRow(rows, account));
      && p[..|rows|] == PayloadRows(rows)
      && p[|rows|].quantiteInitiale == 0.0 && p[|rows|].quantiteVendue == 0.0 && p[|rows|].quantitePerdue == 0.0
  {
  }
}
