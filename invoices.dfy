/**
 * The two invoice pages, app/factures/page.js and app/factures-gestion/page.js.
 * They share a reader, `formatDate`, `parseAmount` and a clamped navigator over the loaded invoices.
 * They differ only in the columns an invoice row must fill: `Client` on the first page,
 * `Propriétaire Nom` on the second.
 */
module Invoices {
  import opened Wrappers
  import opened Strings
  import opened Seqs
  import opened Csv

  // ---------------------------------------------------------------------------
  // Reading invoices

  /** The columns app/factures/page.js requires of an invoice row. */
  const FacturesRequired: seq<string> := ["N° Facture", "Client"]

  /** The columns app/factures-gestion/page.js requires of an invoice row. */
  const GestionRequired: seq<string> := ["N° Facture", "Propriétaire Nom"]

  /** `row[k]` is truthy for every required column `k`: present and non-empty. */
  predicate Complete(row: Row, required: seq<string>)
  {
    forall k :: k in required ==> k in row && row[k] != ""
  }

  /**
   * The invoices of a file: the rows read with `,` and `;` as delimiters, kept when complete.
   * `None` when the text has no non-blank line: `lines[0]` is then undefined, the handler
   * throws, and none of the setters runs.
   */
  function ParseInvoices(text: string, required: seq<string>): (r: Option<seq<Row>>)
    ensures r.None? <==> Blank(text)
    ensures r.Some? ==> |r.value| <= |Lines(text)| - 1
    ensures r.Some? ==> forall i :: 0 <= i < |r.value| ==> Complete(r.value[i], required)
  {
    ParseRowsNone(text, CommaOrSemicolon);
    match ParseRows(text, CommaOrSemicolon)
    case None => None
    case Some(rows) => Some(Filter(rows, row => Complete(row, required)))
  }

  /** The kept invoices are exactly the complete parsed rows, in their original order. */
  lemma KeptInvoices(text: string, required: seq<string>)
    requires ParseRows(text, CommaOrSemicolon).Some?
    ensures var rows := ParseRows(text, CommaOrSemicolon).value;
      var kept := ParseInvoices(text, required).value;
      && (forall row :: row in kept <==> row in rows && Complete(row, required))
      && (forall row :: multiset(kept)[row] == if Complete(row, required) then multiset(rows)[row] else 0)
      && IsSubsequence(kept, rows)
  {
    var rows := ParseRows(text, CommaOrSemicolon).value;
    FilterMembers(rows, row => Complete(row, required));
    FilterSubsequence(rows, row => Complete(row, required));
    forall row
      ensures multiset(ParseInvoices(text, required).value)[row]
        == if Complete(row, required) then multiset(rows)[row] else 0
    {
      FilterCount(rows, row => Complete(row, required), row);
    }
  }

  /** The invoices of two stretches of rows are the invoices of each, in turn. */
  lemma KeptInvoicesAppend(rows: seq<Row>, more: seq<Row>, required: seq<string>)
    ensures Filter(rows + more, row => Complete(row, required))
      == Filter(rows, row => Complete(row, required)) + Filter(more, row => Complete(row, required))
  {
    FilterAppend(rows, more, row => Complete(row, required));
  }

  /** A file whose every row is complete loses no row. */
  lemma AllCompleteKept(text: string, required: seq<string>)
    requires ParseRows(text, CommaOrSemicolon).Some?
    requires var rows := ParseRows(text, CommaOrSemicolon).value;
      forall i :: 0 <= i < |rows| ==> Complete(rows[i], required)
    ensures ParseInvoices(text, required).value == ParseRows(text, CommaOrSemicolon).value
  {
    FilterAllPass(ParseRows(text, CommaOrSemicolon).value, row => Complete(row, required));
  }

  /** The reader of both pages as a procedure. */
  method ReadInvoices(text: string, required: seq<string>) returns (r: Option<seq<Row>>)
    ensures r == ParseInvoices(text, required)
  {
    var parsed := ReadRows(text, CommaOrSemicolon);
    match parsed
    case None => r := None;
    case Some(rows) => r := Some(Filter(rows, row => Complete(row, required)));
  }

  // ---------------------------------------------------------------------------
  // formatDate

  /** Element `i` of a destructured array: JavaScript's `undefined`, as interpolated, when absent. */
  function Part(parts: seq<string>, i: nat): string
  {
    if i < |parts| then parts[i] else "undefined"
  }

  /** `Y-M-D` becomes `D/M/Y`; empty, slashed and dash-free inputs pass through. */
  function FormatDate(s: string): (r: string)
    ensures s == "" ==> r == ""
    ensures '/' in s ==> r == s
    ensures '/' !in s && '-' !in s ==> r == s
    ensures '-' in s && '/' !in s ==> '/' in r
  {
    if s == "" then ""
    else if '/' in s then s
    else if '-' in s then
      var parts := Split(s, {'-'});
      var r := Part(parts, 2) + "/" + Part(parts, 1) + "/" + Part(parts, 0);
      assert r[|Part(parts, 2)|] == '/';
      r
    else s
  }

  /** `formatDate` changes its input only in the dash branch. */
  lemma FormatDateChanges(s: string)
    ensures FormatDate(s) != s ==> '-' in s && '/' !in s
  {
  }

  /** A second `formatDate` changes nothing: the dash branch always emits a `/`. */
  lemma FormatDateIdempotent(s: string)
    ensures FormatDate(FormatDate(s)) == FormatDate(s)
  {
    var r := FormatDate(s);
    if s != "" && '/' !in s && '-' in s {
      assert '/' in r;
    }
  }

  /** An ISO date `Y-M-D`, each part free of `-` and `/`, is rewritten `D/M/Y`. */
  lemma {:induction false} FormatIsoDate(y: string, m: string, d: string)
    requires Avoids(y, {'-', '/'}) && Avoids(m, {'-', '/'}) && Avoids(d, {'-', '/'})
    ensures FormatDate(y + "-" + m + "-" + d) == d + "/" + m + "/" + y
  {
    var s := y + "-" + m + "-" + d;
    var xs := [y, m, d];
    assert Join(xs[..1], "-") == y;
    assert Join(xs[..2], "-") == y + "-" + m by {
      assert xs[..2][..1] == xs[..1];
    }
    assert Join(xs, "-") == s by {
      assert xs[..2] == [y, m];
    }
    forall i | 0 <= i < |xs| ensures Avoids(xs[i], {'-'}) {
    }
    SplitJoin(xs, '-');
    assert s[|y|] == '-';
    assert '/' !in s by {
      forall i | 0 <= i < |s| ensures s[i] != '/' {
        if i < |y| {
          assert s[i] == y[i];
        } else if i == |y| {
        } else if i < |y| + 1 + |m| {
          assert s[i] == m[i - |y| - 1];
        } else if i == |y| + 1 + |m| {
        } else {
          assert s[i] == d[i - |y| - 2 - |m|];
        }
      }
    }
  }

  /** A date with a dash but fewer than two dashes puts `undefined` where the day belongs. */
  lemma {:induction false} FormatShortDate(y: string, m: string)
    requires Avoids(y, {'-', '/'}) && Avoids(m, {'-', '/'})
    ensures FormatDate(y + "-" + m) == "undefined/" + m + "/" + y
  {
    var s := y + "-" + m;
    var xs := [y, m];
    assert Join(xs, "-") == s by {
      assert xs[..1] == [y];
    }
    forall i | 0 <= i < |xs| ensures Avoids(xs[i], {'-'}) {
    }
    SplitJoin(xs, '-');
    assert s[|y|] == '-';
    assert '/' !in s by {
      forall i | 0 <= i < |s| ensures s[i] != '/' {
        if i < |y| {
          assert s[i] == y[i];
        } else if i > |y| {
          assert s[i] == m[i - |y| - 1];
        }
      }
    }
  }

  // ---------------------------------------------------------------------------
  // parseAmount (string step) and the reference

  /** What `parseAmount` hands on: the literal `0`, or the text given to `parseFloat`. */
  datatype Amount = Zero | Parsed(text: string)

  /** A cell of an invoice as `parseAmount` receives it: `undefined` when the column is missing. */
  function Lookup(row: Row, k: string): Option<string>
  {
    if k in row then Some(row[k]) else None
  }

  /** `parseAmount`: falsy input and `'0'` give 0; otherwise only the first `,` becomes `.`. */
  function ParseAmount(value: Option<string>): (r: Amount)
    ensures r == Zero <==> value.None? || value.value == "" || value.value == "0"
    ensures r.Parsed? ==> |r.text| == |value.value|
    ensures r.Parsed? && ',' !in value.value ==> r.text == value.value
  {
    match value
    case None => Zero
    case Some(v) => if v == "" || v == "0" then Zero else Parsed(ReplaceFirst(v, ',', '.'))
  }

  /** With a first comma at `i`, that comma alone becomes a decimal point; later ones stay. */
  lemma ParseAmountComma(v: string, i: nat)
    requires i < |v| && v[i] == ',' && ',' !in v[..i]
    ensures ParseAmount(Some(v)) == Parsed(v[..i] + "." + v[i + 1..])
  {
    ReplaceFirstAt(v, ',', '.', i);
  }

  /**
   * A cell of the current invoice as a string, `missing` standing for the column's absence:
   * a template literal interpolates `undefined`, and `formatDate(undefined)` gives `''`
   * exactly as `formatDate('')` does.
   */
  function CellOr(row: Row, k: string, missing: string): string
  {
    if k in row then row[k] else missing
  }

  /** The reference template: `${appartement} - séjour du ${arrivee} au ${depart}`. */
  function Stay(appartement: string, arrivee: string, depart: string): string
  {
    appartement + " - séjour du " + arrivee + " au " + depart
  }

  /** The invoice reference of app/factures/page.js: apartment and stay, dates reformatted. */
  function Reference(row: Row): (r: string)
  {
    Stay(CellOr(row, "Appartement", "undefined"), FormatDate(CellOr(row, "Arrivée", "")),
      FormatDate(CellOr(row, "Départ", "")))
  }

  /** A stay given with ISO dates appears in the reference with French dates. */
  lemma ReferenceOfIsoStay(row: Row, y1: string, m1: string, d1: string, y2: string, m2: string, d2: string)
    requires "Appartement" in row
    requires "Arrivée" in row && row["Arrivée"] == y1 + "-" + m1 + "-" + d1
    requires "Départ" in row && row["Départ"] == y2 + "-" + m2 + "-" + d2
    requires Avoids(y1, {'-', '/'}) && Avoids(m1, {'-', '/'}) && Avoids(d1, {'-', '/'})
    requires Avoids(y2, {'-', '/'}) && Avoids(m2, {'-', '/'}) && Avoids(d2, {'-', '/'})
    ensures Reference(row) == Stay(row["Appartement"], d1 + "/" + m1 + "/" + y1, d2 + "/" + m2 + "/" + y2)
  {
    FormatIsoDate(y1, m1, d1);
    FormatIsoDate(y2, m2, d2);
  }

  /** A reference of a row without dates keeps only the apartment. */
  lemma ReferenceWithoutDates(row: Row)
    requires "Arrivée" !in row && "Départ" !in row
    ensures Reference(row) == Stay(CellOr(row, "Appartement", "undefined"), "", "")
  {
  }

  // ---------------------------------------------------------------------------
  // The navigator

  /** Previous: `Math.max(0, currentIndex - 1)`. */
  function PrevIndex(i: int): int
  {
    if i - 1 > 0 then i - 1 else 0
  }

  /** Next: `Math.min(invoicesData.length - 1, currentIndex + 1)`. */
  function NextIndex(i: int, len: nat): int
  {
    if len - 1 < i + 1 then len - 1 else i + 1
  }

  /** With a non-empty list, both buttons keep the index within the list. */
  lemma NavigationInRange(i: int, len: nat)
    requires 0 <= i < len
    ensures 0 <= PrevIndex(i) < len && 0 <= NextIndex(i, len) < len
    ensures PrevIndex(i) <= i <= NextIndex(i, len)
  {
  }

  /** Previous undoes Next away from the last invoice, and Next undoes Previous away from the first. */
  lemma NavigationUndo(i: int, len: nat)
    requires 0 <= i < len
    ensures i < len - 1 ==> PrevIndex(NextIndex(i, len)) == i
    ensures i > 0 ==> NextIndex(PrevIndex(i), len) == i
  {
  }

  /** The index after `n` clicks on Next. */
  function NextTimes(i: int, len: nat, n: nat): (r: int)
  {
    if n == 0 then i else NextIndex(NextTimes(i, len, n - 1), len)
  }

  /** Clicking Next `n` times from the first invoice reaches invoice `min(n, len - 1)`. */
  lemma {:induction false} NextTimesFromStart(len: nat, n: nat)
    requires len > 0
    ensures NextTimes(0, len, n) == if n < len - 1 then n else len - 1
  {
    if n > 0 {
      NextTimesFromStart(len, n - 1);
    }
  }

  /** The index after `n` clicks on Previous. */
  function PrevTimes(i: int, n: nat): (r: int)
  {
    if n == 0 then i else PrevIndex(PrevTimes(i, n - 1))
  }

  /** Clicking Previous `n` times from invoice `i` reaches invoice `max(0, i - n)`. */
  lemma {:induction false} PrevTimesFrom(i: nat, n: nat)
    ensures PrevTimes(i, n) == if n < i then i - n else 0
  {
    if n > 0 {
      PrevTimesFrom(i, n - 1);
    }
  }

  /** The state of one invoice page: the loaded invoices, the index shown and the upload flag. */
  class Navigator {
    /** The columns this page requires of an invoice row. */
    const required: seq<string>
    var invoicesData: seq<Row>
    var currentIndex: int
    var showUpload: bool

    /** The index stays on a loaded invoice, or at 0 while there is none. */
    ghost predicate Valid()
      reads this
    {
      0 <= currentIndex && (if invoicesData == [] then currentIndex == 0 else currentIndex < |invoicesData|)
    }

    /** The initial state: no invoice, index 0, the upload screen shown. */
    constructor (required: seq<string>)
      ensures Valid()
      ensures this.required == required
      ensures invoicesData == [] && currentIndex == 0 && showUpload
    {
      this.required := required;
      invoicesData := [];
      currentIndex := 0;
      showUpload := true;
    }

    /** The upload screen is rendered instead of an invoice. */
    predicate UploadVisible()
      reads this
    {
      showUpload || |invoicesData| == 0
    }

    /** The Previous button is disabled. */
    predicate PreviousDisabled()
      reads this
    {
      currentIndex == 0
    }

    /** The Next button is disabled. */
    predicate NextDisabled()
      reads this
    {
      currentIndex == |invoicesData| - 1
    }

    /** `invoicesData[currentIndex]`: `None` where the page renders nothing. */
    function CurrentInvoice(): Option<Row>
      reads this
    {
      if 0 <= currentIndex < |invoicesData| then Some(invoicesData[currentIndex]) else None
    }

    /** The Previous button is disabled exactly where a click would not move the index. */
    lemma PreviousDisabledIffStuck()
      requires Valid()
      ensures PreviousDisabled() <==> PrevIndex(currentIndex) == currentIndex
    {
    }

    /** The Next button is disabled exactly where a click would not move the index. */
    lemma NextDisabledIffStuck()
      requires Valid()
      ensures NextDisabled() <==> NextIndex(currentIndex, |invoicesData|) == currentIndex
    {
    }

    /**
     * `parseAmount(currentInvoice[k])`, as the second page reads `Montant TTC`; the first
     * page's `currentInvoice[k] || 0` gives the same, a missing or empty cell being 0 either way.
     */
    function AmountOf(k: string): (r: Amount)
      reads this
      requires Valid() && !UploadVisible()
      ensures var row := invoicesData[currentIndex];
        && (r == Zero <==> k !in row || row[k] == "" || row[k] == "0")
        && (r.Parsed? ==> |r.text| == |row[k]| && (',' !in row[k] ==> r.text == row[k]))
    {
      ParseAmount(Lookup(invoicesData[currentIndex], k))
    }

    /** Whenever the invoice view is rendered, there is an invoice to show: the one at the index. */
    lemma ViewHasInvoice()
      requires Valid() && !UploadVisible()
      ensures CurrentInvoice() == Some(invoicesData[currentIndex])
    {
    }

    /**
     * `handleFileSelect` once the file is read: with no file, or a text without a non-blank
     * line, nothing changes; otherwise the complete rows are loaded, the upload screen is
     * hidden and the first invoice is shown.
     */
    method Load(file: Option<string>)
      requires Valid()
      modifies this
      ensures Valid()
      ensures file.None? ==> unchanged(this)
      ensures file.Some? && Blank(file.value) ==> unchanged(this)
      ensures file.Some? && !Blank(file.value) ==>
        && invoicesData == ParseInvoices(file.value, required).value
        && !showUpload && currentIndex == 0
    {
      if file.None? {
        return;
      }
      var parsed := ReadInvoices(file.value, required);
      match parsed
      case None =>
      case Some(rows) =>
        invoicesData := rows;
        showUpload := false;
        currentIndex := 0;
    }

    /** The Previous button of the invoice view. */
    method Previous()
      requires Valid() && !UploadVisible()
      modifies this
      ensures Valid()
      ensures currentIndex == PrevIndex(old(currentIndex))
      ensures invoicesData == old(invoicesData) && showUpload == old(showUpload)
    {
      currentIndex := if 0 > currentIndex - 1 then 0 else currentIndex - 1;
    }

    /** The Next button of the invoice view. */
    method Next()
      requires Valid() && !UploadVisible()
      modifies this
      ensures Valid()
      ensures currentIndex == NextIndex(old(currentIndex), |invoicesData|)
      ensures invoicesData == old(invoicesData) && showUpload == old(showUpload)
    {
      currentIndex := if |invoicesData| - 1 < currentIndex + 1 then |invoicesData| - 1 else currentIndex + 1;
    }

    /** "Nouveau fichier": back to the upload screen, the invoices and index kept. */
    method NewFile()
      requires Valid()
      modifies this
      ensures Valid()
      ensures showUpload
      ensures invoicesData == old(invoicesData) && currentIndex == old(currentIndex)
    {
      showUpload := true;
    }
  }
}
