/**
 * The upstream (MES) side of the reconciliation job, as data: the recently
 * updated barcode-creation batches and the barcodes each batch owns. The SQL
 * that selects them is not modelled; the job receives them as given input.
 */
module Mes {

  /** One barcode-creation record: a row of `jgmes_barcode_create` joined to its production task. */
  datatype Batch = Batch(bcId: int, taskCode: string, invCode: string, invName: string, orderCode: string)

  /** One generated serial number of a batch (a non-deleted row of `jgmes_barcode_data`). */
  datatype Barcode = Barcode(bdId: int, code: string)

  /** The list of codes of a batch's barcodes, in the order the query returned them. */
  function BarcodeCodes(barcodes: seq<Barcode>): (codes: seq<string>)
    ensures |codes| == |barcodes|
    ensures forall c :: c in codes <==> exists b :: b in barcodes && b.code == c
  {
    var codes := seq(|barcodes|, k requires 0 <= k < |barcodes| => barcodes[k].code);
    assert forall b :: b in barcodes ==> b.code in codes by {
      forall b | b in barcodes
        ensures b.code in codes
      {
        var k :| 0 <= k < |barcodes| && barcodes[k] == b;
        assert codes[k] == b.code;
      }
    }
    codes
  }
}
