/**
 * The fusion page, app/page.js: Lodgify and Airbnb exports read into one booking
 * record shape, merged, sorted by apartment then arrival date, and written back
 * as one CSV text.
 */
module Fusion {
  import opened Wrappers
  import opened Strings
  import opened Seqs
  import opened Csv

  /** One booking, whichever platform it was read from. */
  datatype Booking = Booking(
    code: string,
    client: string,
    appartement: string,
    arrivee: string,
    depart: string,
    source: string,
    montant: string)

  // ---------------------------------------------------------------------------
  // Column mappings

  /** No key before position `i` of `keys` gives a non-empty value. */
  predicate NoneBefore(row: Row, keys: seq<string>, i: nat)
    requires i <= |keys|
  {
    forall j :: 0 <= j < i ==> keys[j] !in row || row[keys[j]] == ""
  }

  /** `row[k0] || row[k1] || … || fallback`, a missing key reading as `undefined`. */
  function FirstNonEmpty(row: Row, keys: seq<string>, fallback: string): (r: string)
    ensures r == fallback || exists i :: 0 <= i < |keys| && keys[i] in row && row[keys[i]] == r && r != ""
  {
    if keys == [] then fallback
    else if keys[0] in row && row[keys[0]] != "" then row[keys[0]]
    else FirstNonEmpty(row, keys[1..], fallback)
  }

  /** The value of the first key that is present with a non-empty value is the result. */
  lemma {:induction false} FirstNonEmptyHit(row: Row, keys: seq<string>, fallback: string, i: nat)
    requires i < |keys| && keys[i] in row && row[keys[i]] != "" && NoneBefore(row, keys, i)
    ensures FirstNonEmpty(row, keys, fallback) == row[keys[i]]
  {
    if i > 0 {
      assert keys[0] !in row || row[keys[0]] == "";
      assert NoneBefore(row, keys[1..], i - 1) by {
        forall j | 0 <= j < i - 1 ensures keys[1..][j] !in row || row[keys[1..][j]] == "" {
          assert keys[1..][j] == keys[j + 1];
        }
      }
      FirstNonEmptyHit(row, keys[1..], fallback, i - 1);
    }
  }

  /** When no key gives a non-empty value, the fallback is the result. */
  lemma {:induction false} FirstNonEmptyMiss(row: Row, keys: seq<string>, fallback: string)
    requires NoneBefore(row, keys, |keys|)
    ensures FirstNonEmpty(row, keys, fallback) == fallback
  {
    if keys != [] {
      assert keys[0] !in row || row[keys[0]] == "";
      assert NoneBefore(row, keys[1..], |keys| - 1) by {
        forall j | 0 <= j < |keys| - 1 ensures keys[1..][j] !in row || row[keys[1..][j]] == "" {
          assert keys[1..][j] == keys[j + 1];
        }
      }
      FirstNonEmptyMiss(row, keys[1..], fallback);
    }
  }

  /** The object built for each parsed row of a Lodgify export. */
  function LodgifyBooking(row: Row): (r: Booking)
    ensures r.source == "Lodgify"
    ensures |r.montant| == |FirstNonEmpty(row, ["TotalAmount", "Total"], "0")|
  {
    Booking(
      FirstNonEmpty(row, ["SourceText", "Code"], ""),
      FirstNonEmpty(row, ["Name", "Client"], ""),
      FirstNonEmpty(row, ["HouseName", "Appartement"], ""),
      FirstNonEmpty(row, ["DateArrival", "Arrivée"], ""),
      FirstNonEmpty(row, ["DateDeparture", "Départ"], ""),
      "Lodgify",
      ReplaceFirst(FirstNonEmpty(row, ["TotalAmount", "Total"], "0"), ',', '.'))
  }

  /** The object built for each parsed row of an Airbnb export. */
  function AirbnbBooking(row: Row): (r: Booking)
    ensures r.source == "Airbnb"
    ensures Avoids(r.montant, {'€', '$', ','})
  {
    Booking(
      FirstNonEmpty(row, ["Confirmation code", "Code de confirmation"], ""),
      FirstNonEmpty(row, ["Guest name", "Nom du voyageur"], ""),
      FirstNonEmpty(row, ["Listing", "Annonce"], ""),
      FirstNonEmpty(row, ["Start date", "Date de début"], ""),
      FirstNonEmpty(row, ["End date", "Date de fin"], ""),
      "Airbnb",
      RemoveAll(FirstNonEmpty(row, ["Earnings", "Revenus"], "0"), {'€', '$', ','}))
  }

  /**
   * The amount of a Lodgify record is the first non-empty of
   * `TotalAmount` and `Total` (`'0'` without one) with only its first `,` made a `.`.
   */
  lemma LodgifyAmount(row: Row, i: nat)
    ensures var raw := FirstNonEmpty(row, ["TotalAmount", "Total"], "0");
      && (',' !in raw ==> LodgifyBooking(row).montant == raw)
      && (i < |raw| && raw[i] == ',' && ',' !in raw[..i] ==>
            LodgifyBooking(row).montant == raw[..i] + "." + raw[i + 1..])
  {
    var raw := FirstNonEmpty(row, ["TotalAmount", "Total"], "0");
    if i < |raw| && raw[i] == ',' && ',' !in raw[..i] {
      ReplaceFirstAt(raw, ',', '.', i);
    }
  }

  /**
   * The amount of an Airbnb record is the first non-empty of `Earnings` and `Revenus`
   * (`'0'` without one) with every `€`, `$` and `,` removed, the other characters
   * keeping their order: removal can be done piece by piece, cut anywhere.
   */
  lemma AirbnbAmount(row: Row, a: string, b: string)
    ensures FirstNonEmpty(row, ["Earnings", "Revenus"], "0") == a + b ==>
      AirbnbBooking(row).montant == RemoveAll(a, {'€', '$', ','}) + RemoveAll(b, {'€', '$', ','})
  {
    RemoveAllAppend(a, b, {'€', '$', ','});
  }

  /** A thousands separator or a currency sign between two runs free of them is dropped: `1,234` reads `1234`. */
  lemma AirbnbSeparator(row: Row, a: string, c: char, b: string)
    requires FirstNonEmpty(row, ["Earnings", "Revenus"], "0") == a + [c] + b
    requires c in {'€', '$', ','} && Avoids(a, {'€', '$', ','}) && Avoids(b, {'€', '$', ','})
    ensures AirbnbBooking(row).montant == a + b
  {
    var cs := {'€', '$', ','};
    RemoveAllAppend(a + [c], b, cs);
    RemoveAllAppend(a, [c], cs);
    RemoveAllSingle(c, cs);
    assert a + [] == a;
  }

  function LodgifyBookings(rows: seq<Row>): (r: seq<Booking>)
    ensures |r| == |rows|
  {
    if rows == [] then [] else LodgifyBookings(rows[..|rows| - 1]) + [LodgifyBooking(rows[|rows| - 1])]
  }

  function AirbnbBookings(rows: seq<Row>): (r: seq<Booking>)
    ensures |r| == |rows|
  {
    if rows == [] then [] else AirbnbBookings(rows[..|rows| - 1]) + [AirbnbBooking(rows[|rows| - 1])]
  }

  lemma {:induction false} LodgifyBookingsAt(rows: seq<Row>, i: nat)
    requires i < |rows|
    ensures LodgifyBookings(rows)[i] == LodgifyBooking(rows[i])
  {
    if i < |rows| - 1 {
      LodgifyBookingsAt(rows[..|rows| - 1], i);
    }
  }

  lemma {:induction false} AirbnbBookingsAt(rows: seq<Row>, i: nat)
    requires i < |rows|
    ensures AirbnbBookings(rows)[i] == AirbnbBooking(rows[i])
  {
    if i < |rows| - 1 {
      AirbnbBookingsAt(rows[..|rows| - 1], i);
    }
  }

  // ---------------------------------------------------------------------------
  // Sorting the merged list

  /**
   * The comparator of `fusionner` returns a negative number: a different apartment
   * that comes first in the name order, or the same apartment and an earlier
   * arrival. `date` stands for `new Date(…)` as a timestamp.
   */
  predicate Less(a: Booking, b: Booking, date: string -> int)
  {
    if a.appartement != b.appartement then LexLess(a.appartement, b.appartement)
    else date(a.arrivee) < date(b.arrivee)
  }

  /** The comparator returns 0: same apartment, same arrival timestamp. */
  predicate Equiv(a: Booking, b: Booking, date: string -> int)
  {
    a.appartement == b.appartement && date(a.arrivee) == date(b.arrivee)
  }

  /** Exactly one of `a < b`, `b < a` and "tied" holds. */
  lemma LessTrichotomy(a: Booking, b: Booking, date: string -> int)
    ensures Less(a, b, date) || Less(b, a, date) || Equiv(a, b, date)
    ensures !(Less(a, b, date) && Less(b, a, date))
    ensures Equiv(a, b, date) ==> !Less(a, b, date) && !Less(b, a, date)
  {
    LexLessTotal(a.appartement, b.appartement);
    if LexLess(a.appartement, b.appartement) && LexLess(b.appartement, a.appartement) {
      LexLessTransitive(a.appartement, b.appartement, a.appartement);
      LexLessIrreflexive(a.appartement);
    }
    LexLessIrreflexive(a.appartement);
  }

  lemma LessTransitive(a: Booking, b: Booking, c: Booking, date: string -> int)
    requires Less(a, b, date) && Less(b, c, date)
    ensures Less(a, c, date)
  {
    if a.appartement != b.appartement && b.appartement != c.appartement {
      LexLessTransitive(a.appartement, b.appartement, c.appartement);
      if a.appartement == c.appartement {
        LessTrichotomy(a, b, date);
      }
    }
  }

  /** `a < c` forces `a < b` or `b < c`: "not less" is transitive. */
  lemma LessSplit(a: Booking, b: Booking, c: Booking, date: string -> int)
    requires Less(a, c, date)
    ensures Less(a, b, date) || Less(b, c, date)
  {
    LessTrichotomy(a, b, date);
    LessTrichotomy(b, c, date);
    if Less(b, a, date) && Less(c, b, date) {
      LessTransitive(c, b, a, date);
      LessTrichotomy(a, c, date);
    } else if Less(b, a, date) && Equiv(b, c, date) {
      LessTrichotomy(a, c, date);
    } else if Equiv(a, b, date) && Less(c, b, date) {
      LessTrichotomy(a, c, date);
    } else if Equiv(a, b, date) && Equiv(b, c, date) {
      LessTrichotomy(a, c, date);
    }
  }

  /** Insertion from the back: `x` goes after every element it is not less than. */
  function Insert(x: Booking, s: seq<Booking>, date: string -> int): (r: seq<Booking>)
    ensures |r| == |s| + 1
  {
    if s == [] then [x]
    else if Less(x, s[|s| - 1], date) then Insert(x, s[..|s| - 1], date) + [s[|s| - 1]]
    else s + [x]
  }

  /** A stable sort by the comparator: the order `all.sort(…)` produces. */
  function StableSort(s: seq<Booking>, date: string -> int): (r: seq<Booking>)
    ensures |r| == |s|
  {
    if s == [] then [] else Insert(s[|s| - 1], StableSort(s[..|s| - 1], date), date)
  }

  /** No element is less than one before it. */
  predicate Sorted(s: seq<Booking>, date: string -> int)
  {
    forall i, j :: 0 <= i < j < |s| ==> !Less(s[j], s[i], date)
  }

  lemma {:induction false} InsertPermutes(x: Booking, s: seq<Booking>, date: string -> int)
    ensures multiset(Insert(x, s, date)) == multiset(s) + multiset{x}
  {
    if s != [] && Less(x, s[|s| - 1], date) {
      var init := s[..|s| - 1];
      InsertPermutes(x, init, date);
      LastSplit(s);
    }
  }

  /** The merged list is a rearrangement of its input. */
  lemma {:induction false} StableSortPermutes(s: seq<Booking>, date: string -> int)
    ensures multiset(StableSort(s, date)) == multiset(s)
  {
    if s != [] {
      var init := s[..|s| - 1];
      StableSortPermutes(init, date);
      InsertPermutes(s[|s| - 1], StableSort(init, date), date);
      LastSplit(s);
    }
  }

  /** `m` is less than no element of `s`: it may follow all of them. */
  predicate Bounds(m: Booking, s: seq<Booking>, date: string -> int)
  {
    forall i :: 0 <= i < |s| ==> !Less(m, s[i], date)
  }

  lemma {:induction false} InsertBounds(x: Booking, s: seq<Booking>, m: Booking, date: string -> int)
    requires Bounds(m, s, date) && !Less(m, x, date)
    ensures Bounds(m, Insert(x, s, date), date)
  {
    if s != [] && Less(x, s[|s| - 1], date) {
      var init := s[..|s| - 1];
      InsertBounds(x, init, m, date);
      var t := Insert(x, init, date);
      assert forall i :: 0 <= i < |t| ==> (t + [s[|s| - 1]])[i] == t[i];
    }
  }

  lemma SortedSnoc(s: seq<Booking>, x: Booking, date: string -> int)
    requires Sorted(s, date) && Bounds(x, s, date)
    ensures Sorted(s + [x], date)
  {
    var r := s + [x];
    forall i, j | 0 <= i < j < |r| ensures !Less(r[j], r[i], date) {
      if j < |s| {
        assert r[i] == s[i] && r[j] == s[j];
      }
    }
  }

  lemma {:induction false} InsertSorted(x: Booking, s: seq<Booking>, date: string -> int)
    requires Sorted(s, date)
    ensures Sorted(Insert(x, s, date), date)
  {
    if s != [] {
      var n := |s|;
      var last := s[n - 1];
      var init := s[..n - 1];
      assert Sorted(init, date) by {
        assert forall i :: 0 <= i < n - 1 ==> init[i] == s[i];
      }
      assert Bounds(last, init, date) by {
        assert forall i :: 0 <= i < n - 1 ==> init[i] == s[i];
      }
      if Less(x, last, date) {
        InsertSorted(x, init, date);
        LessTrichotomy(x, last, date);
        InsertBounds(x, init, last, date);
        SortedSnoc(Insert(x, init, date), last, date);
      } else {
        forall i | 0 <= i < n ensures !Less(x, s[i], date) {
          if i < n - 1 && Less(x, s[i], date) {
            LessSplit(x, last, s[i], date);
          }
        }
        SortedSnoc(s, x, date);
      }
    }
  }

  /** The merged list is ordered by apartment, then by arrival. */
  lemma {:induction false} StableSortSorted(s: seq<Booking>, date: string -> int)
    ensures Sorted(StableSort(s, date), date)
  {
    if s != [] {
      StableSortSorted(s[..|s| - 1], date);
      InsertSorted(s[|s| - 1], StableSort(s[..|s| - 1], date), date);
    }
  }

  /** The elements of `s` tied with `y`, in their order in `s`. */
  function Ties(s: seq<Booking>, y: Booking, date: string -> int): seq<Booking>
  {
    if s == [] then []
    else Ties(s[..|s| - 1], y, date) + (if Equiv(s[|s| - 1], y, date) then [s[|s| - 1]] else [])
  }

  lemma {:induction false} TiesAppend(a: seq<Booking>, b: seq<Booking>, y: Booking, date: string -> int)
    ensures Ties(a + b, y, date) == Ties(a, y, date) + Ties(b, y, date)
    decreases |b|
  {
    if b == [] {
      AppendEmpty(a);
      AppendEmpty(Ties(a, y, date));
    } else {
      var b' := b[..|b| - 1];
      var z := b[|b| - 1];
      TiesAppend(a, b', y, date);
      LastSplit(b);
      Associative(a, b', [z]);
      assert (a + b)[..|a + b| - 1] == a + b';
      var e := if Equiv(z, y, date) then [z] else [];
      Associative(Ties(a, y, date), Ties(b', y, date), e);
    }
  }

  lemma {:induction false} InsertTies(x: Booking, s: seq<Booking>, y: Booking, date: string -> int)
    ensures Ties(Insert(x, s, date), y, date) == Ties(s + [x], y, date)
  {
    if s != [] && Less(x, s[|s| - 1], date) {
      var init := s[..|s| - 1];
      var last := s[|s| - 1];
      InsertTies(x, init, y, date);
      TiesAppend(Insert(x, init, date), [last], y, date);
      TiesAppend(init + [x], [last], y, date);
      TiesAppend(init, [x], y, date);
      TiesAppend(init, [last], y, date);
      TiesAppend(init + [last], [x], y, date);
      LastSplit(s);
      if Equiv(x, y, date) && Equiv(last, y, date) {
        LessTrichotomy(x, last, date);
      }
      assert Ties([x], y, date) + Ties([last], y, date) == Ties([last], y, date) + Ties([x], y, date);
    }
  }

  /** Stability: tied bookings keep their relative order. */
  lemma {:induction false} StableSortTies(s: seq<Booking>, y: Booking, date: string -> int)
    ensures Ties(StableSort(s, date), y, date) == Ties(s, y, date)
  {
    if s != [] {
      var init := s[..|s| - 1];
      StableSortTies(init, y, date);
      InsertTies(s[|s| - 1], StableSort(init, date), y, date);
      TiesAppend(StableSort(init, date), [s[|s| - 1]], y, date);
      TiesAppend(init, [s[|s| - 1]], y, date);
      LastSplit(s);
    }
  }

  /**
   * Merging: among tied bookings, every Lodgify one stays before every Airbnb
   * one, each side in its own order.
   */
  lemma FusionTies(lodgify: seq<Booking>, airbnb: seq<Booking>, y: Booking, date: string -> int)
    ensures Ties(StableSort(lodgify + airbnb, date), y, date) == Ties(lodgify, y, date) + Ties(airbnb, y, date)
  {
    StableSortTies(lodgify + airbnb, y, date);
    TiesAppend(lodgify, airbnb, y, date);
  }

  /**
   * Where `Insert` puts `x`: after the prefix `t[..j]` whose last element is
   * not above it, and before the suffix `t[j..]`, all of whose elements are.
   */
  lemma {:induction false} InsertSplit(x: Booking, t: seq<Booking>, j: nat, date: string -> int)
    requires j <= |t|
    requires j == 0 || !Less(x, t[j - 1], date)
    requires forall k :: j <= k < |t| ==> Less(x, t[k], date)
    ensures Insert(x, t, date) == t[..j] + [x] + t[j..]
    decreases |t|
  {
    if j < |t| {
      var init := t[..|t| - 1];
      assert init[..j] == t[..j];
      InsertSplit(x, init, j, date);
      assert init[j..] + [t[|t| - 1]] == t[j..];
    } else if t != [] {
      assert t[..j] == t;
    }
  }

  /** The array during a pass: `t[..j]`, a hole at `j`, then `t[j..]` shifted right and the untouched rest. */
  ghost predicate Shifted(b: seq<Booking>, t: seq<Booking>, rest: seq<Booking>, j: nat)
  {
    j <= |t| && |b| == |t| + 1 + |rest| && b[..j] == t[..j] && b[j + 1..] == t[j..] + rest
  }

  /** Copying the element left of the hole into it moves the hole one step left. */
  lemma ShiftLeft(b: seq<Booking>, t: seq<Booking>, rest: seq<Booking>, j: nat)
    requires 0 < j && Shifted(b, t, rest, j)
    ensures Shifted(b[j := b[j - 1]], t, rest, j - 1)
  {
    var c := b[j := b[j - 1]];
    assert c[..j - 1] == t[..j - 1];
    assert c[j..] == [t[j - 1]] + t[j..] + rest;
  }

  /** Filling the hole with `x` leaves `t` with `x` inserted at `j`, followed by the rest. */
  lemma FillHole(b: seq<Booking>, t: seq<Booking>, rest: seq<Booking>, j: nat, x: Booking)
    requires Shifted(b, t, rest, j)
    ensures b[j := x] == t[..j] + [x] + t[j..] + rest
  {
    var c := b[j := x];
    assert c[..j] == t[..j] && c[j + 1..] == t[j..] + rest;
    assert c == c[..j] + [x] + c[j + 1..];
  }

  /** One pass of the sort: `a[i]` moved down past the larger elements of the sorted `a[..i]`. */
  method InsertAt(a: array<Booking>, i: nat, date: string -> int)
    requires i < a.Length
    modifies a
    ensures a[..] == Insert(old(a[i]), old(a[..i]), date) + old(a[i + 1..])
  {
    var x := a[i];
    ghost var t := a[..i];
    ghost var rest := a[i + 1..];
    var j := i;
    assert Shifted(a[..], t, rest, j);
    while j > 0 && Less(x, a[j - 1], date)
      invariant 0 <= j <= i
      invariant Shifted(a[..], t, rest, j)
      invariant forall k :: j <= k < i ==> Less(x, t[k], date)
      decreases j
    {
      assert a[j - 1] == t[j - 1];
      ShiftLeft(a[..], t, rest, j);
      a[j] := a[j - 1];
      j := j - 1;
    }
    assert j == 0 || a[j - 1] == t[j - 1];
    FillHole(a[..], t, rest, j, x);
    a[j] := x;
    InsertSplit(x, t, j, date);
  }

  /** Sorting one more element of `s` inserts it into the sorted prefix. */
  lemma StableSortPrefix(s: seq<Booking>, i: nat, date: string -> int)
    requires i < |s|
    ensures StableSort(s[..i + 1], date) == Insert(s[i], StableSort(s[..i], date), date)
  {
    assert s[..i + 1][..i] == s[..i];
  }

  /** The array before pass `i`: the sorted prefix, then `s[i]`, then the rest of `s`. */
  lemma PassStart(b: seq<Booking>, sorted: seq<Booking>, s: seq<Booking>, i: nat)
    requires i < |s| && |sorted| == i && b == sorted + s[i..]
    ensures b[i] == s[i] && b[..i] == sorted && b[i + 1..] == s[i + 1..]
  {
  }

  /** `all.sort(comparator)` on the merged array: an insertion sort, stable like the built-in sort. */
  method SortInPlace(a: array<Booking>, date: string -> int)
    modifies a
    ensures a[..] == StableSort(old(a[..]), date)
  {
    ghost var s := a[..];
    for i := 0 to a.Length
      invariant a[..] == StableSort(s[..i], date) + s[i..]
    {
      PassStart(a[..], StableSort(s[..i], date), s, i);
      InsertAt(a, i, date);
      StableSortPrefix(s, i, date);
    }
    assert s[..a.Length] == s;
  }

  // ---------------------------------------------------------------------------
  // Export

  /** The column names of the exported file, in order. */
  const ExportColumns: seq<string> := ["Appartement", "Arrivée", "Départ", "Client", "Code", "Source", "Montant"]

  /** Its header line, `Appartement,Arrivée,Départ,Client,Code,Source,Montant`. */
  const ExportHeader: string := Join(ExportColumns, ",")

  /**
   * One exported line: apartment and client quoted, the other fields bare.
   * `printed` stands for the template's rendering of the number `parseFloat`
   * made of the amount text.
   */
  function ExportLine(r: Booking, printed: string -> string): (line: string)
    ensures |line| >= 2 + |r.appartement| && line[0] == '"' && line[|r.appartement| + 1] == '"'
    ensures line[..|r.appartement| + 2] == Quote(r.appartement)
  {
    Quote(r.appartement) + "," + r.arrivee + "," + r.depart + "," + Quote(r.client) + ","
      + r.code + "," + r.source + "," + printed(r.montant)
  }

  function ExportLines(rs: seq<Booking>, printed: string -> string): (r: seq<string>)
    ensures |r| == |rs|
  {
    if rs == [] then [] else ExportLines(rs[..|rs| - 1], printed) + [ExportLine(rs[|rs| - 1], printed)]
  }

  /** The header followed by one line per booking. */
  function ExportedLines(rs: seq<Booking>, printed: string -> string): seq<string>
  {
    [ExportHeader] + ExportLines(rs, printed)
  }

  /** The text `exporter` downloads; `None` when there is nothing merged, where it returns early. */
  function ExportText(rs: seq<Booking>, printed: string -> string): (r: Option<string>)
    ensures r.None? <==> rs == []
  {
    if rs == [] then None else Some(Join(ExportedLines(rs, printed), "\n"))
  }

  /** The cells of an exported line. */
  function ExportCells(r: Booking, printed: string -> string): seq<Cell>
  {
    [Quoted(r.appartement), Bare(r.arrivee), Bare(r.depart), Quoted(r.client),
     Bare(r.code), Bare(r.source), Bare(printed(r.montant))]
  }

  /** The values of an exported line, column by column. */
  function ExportFields(r: Booking, printed: string -> string): seq<string>
  {
    [r.appartement, r.arrivee, r.depart, r.client, r.code, r.source, printed(r.montant)]
  }

  /** Seven pieces joined: the separator between each two. */
  lemma JoinSeven(a: string, b: string, c: string, d: string, e: string, f: string, g: string, sep: string)
    ensures Join([a, b, c, d, e, f, g], sep) == a + sep + b + sep + c + sep + d + sep + e + sep + f + sep + g
  {
    JoinSnoc([a], b, sep);
    assert [a] + [b] == [a, b];
    JoinSnoc([a, b], c, sep);
    assert [a, b] + [c] == [a, b, c];
    JoinSnoc([a, b, c], d, sep);
    assert [a, b, c] + [d] == [a, b, c, d];
    JoinSnoc([a, b, c, d], e, sep);
    assert [a, b, c, d] + [e] == [a, b, c, d, e];
    JoinSnoc([a, b, c, d, e], f, sep);
    assert [a, b, c, d, e] + [f] == [a, b, c, d, e, f];
    JoinSnoc([a, b, c, d, e, f], g, sep);
    assert [a, b, c, d, e, f] + [g] == [a, b, c, d, e, f, g];
  }

  /** The template is the seven cells written out and joined by commas. */
  lemma ExportLineCells(r: Booking, printed: string -> string)
    ensures ExportLine(r, printed) == Join(Renders(ExportCells(r, printed)), ",")
    ensures Texts(ExportCells(r, printed)) == ExportFields(r, printed)
  {
    var cs := ExportCells(r, printed);
    assert Renders(cs) == [Render(cs[0]), Render(cs[1]), Render(cs[2]), Render(cs[3]),
                           Render(cs[4]), Render(cs[5]), Render(cs[6])];
    JoinSeven(Quote(r.appartement), r.arrivee, r.depart, Quote(r.client), r.code, r.source, printed(r.montant), ",");
  }

  /**
   * A booking whose fields survive the export: no field holds `"` or a line
   * break or starts or ends with whitespace, and no unquoted field holds a comma.
   */
  predicate Exportable(r: Booking, printed: string -> string)
  {
    var cs := ExportCells(r, printed);
    forall i :: 0 <= i < |cs| ==> Readable(cs[i], Comma) && '\n' !in cs[i].text
  }

  /** An exported line tokenizes back into the booking's fields. */
  lemma ExportLineReads(r: Booking, printed: string -> string)
    requires Exportable(r, printed)
    ensures Tokenize(ExportLine(r, printed), Comma) == ExportFields(r, printed)
  {
    ExportLineCells(r, printed);
    TokenizeRendered(ExportCells(r, printed), ',', Comma);
  }

  /** An exported line is one non-blank line. */
  lemma ExportLineShape(r: Booking, printed: string -> string)
    requires Exportable(r, printed)
    ensures '\n' !in ExportLine(r, printed) && ExportLine(r, printed)[0] == '"'
  {
    var cs := ExportCells(r, printed);
    assert '\n' !in cs[0].text && '\n' !in cs[1].text && '\n' !in cs[2].text && '\n' !in cs[3].text;
    assert '\n' !in cs[4].text && '\n' !in cs[5].text && '\n' !in cs[6].text;
  }

  /** A column name the reader and the writer both leave alone. */
  predicate PlainName(s: string)
  {
    ',' !in s && '"' !in s && '\n' !in s && Trimmed(s)
  }

  lemma ColumnsPlain()
    ensures forall i :: 0 <= i < |ExportColumns| ==> PlainName(ExportColumns[i])
  {
    assert PlainName("Appartement");
    assert PlainName("Arrivée");
    assert PlainName("Départ");
    assert PlainName("Client");
    assert PlainName("Code");
    assert PlainName("Source");
    assert PlainName("Montant");
  }

  lemma NotInAvoids(s: string, d: char)
    requires d !in s
    ensures Avoids(s, {d})
  {
  }

  /** The header line reads back as the column names. */
  lemma ExportHeaders()
    ensures Headers(ExportHeader, Comma) == ExportColumns
  {
    var cols := ExportColumns;
    ColumnsPlain();
    forall i | 0 <= i < |cols| ensures Avoids(cols[i], {','}) {
      NotInAvoids(cols[i], ',');
    }
    SplitJoin(cols, ',');
    assert CleanAll(cols) == cols;
  }

  /** The header line is one non-blank line. */
  lemma ExportHeaderShape()
    ensures '\n' !in ExportHeader && ExportHeader[0] == 'A'
  {
    var cols := ExportColumns;
    ColumnsPlain();
    JoinSeven(cols[0], cols[1], cols[2], cols[3], cols[4], cols[5], cols[6], ",");
  }

  lemma {:induction false} ExportLinesAt(rs: seq<Booking>, printed: string -> string, i: nat)
    requires i < |rs|
    ensures ExportLines(rs, printed)[i] == ExportLine(rs[i], printed)
  {
    if i < |rs| - 1 {
      ExportLinesAt(rs[..|rs| - 1], printed, i);
    }
  }

  /** A line that starts with a non-space character survives the blank-line filter. */
  lemma StartsNonBlank(s: string)
    requires |s| > 0 && !IsSpace(s[0])
    ensures NonBlank(s)
  {
    TrimSpec(s);
  }

  /** Every line of the exported text is free of line breaks and non-blank. */
  lemma ExportPieces(rs: seq<Booking>, printed: string -> string)
    requires forall i :: 0 <= i < |rs| ==> Exportable(rs[i], printed)
    ensures forall i :: 0 <= i < |ExportedLines(rs, printed)| ==>
              Avoids(ExportedLines(rs, printed)[i], {'\n'}) && NonBlank(ExportedLines(rs, printed)[i])
  {
    var xs := ExportedLines(rs, printed);
    ExportHeaderShape();
    forall i | 0 <= i < |xs| ensures Avoids(xs[i], {'\n'}) && NonBlank(xs[i]) {
      if i == 0 {
        StartsNonBlank(ExportHeader);
        NotInAvoids(ExportHeader, '\n');
      } else {
        ExportLinesAt(rs, printed, i - 1);
        ExportLineShape(rs[i - 1], printed);
        StartsNonBlank(xs[i]);
        NotInAvoids(xs[i], '\n');
      }
    }
  }

  /** What the reader makes of an exported line: the columns, each holding the booking's field. */
  ghost predicate RowMatches(row: Row, r: Booking, printed: string -> string)
  {
    && (forall h :: h in row <==> h in ExportColumns)
    && forall j :: 0 <= j < |ExportColumns| ==>
         ExportColumns[j] in row && row[ExportColumns[j]] == ExportFields(r, printed)[j]
  }

  lemma ColumnsDistinct()
    ensures forall j :: 0 <= j < |ExportColumns| ==> ExportColumns[j] !in ExportColumns[j + 1..]
  {
  }

  lemma FieldsRow(r: Booking, printed: string -> string)
    ensures RowMatches(RowOf(ExportColumns, ExportFields(r, printed)), r, printed)
  {
    var fs := ExportFields(r, printed);
    RowOfKeys(ExportColumns, fs);
    ColumnsDistinct();
    forall j | 0 <= j < |ExportColumns| ensures
      ExportColumns[j] in RowOf(ExportColumns, fs) && RowOf(ExportColumns, fs)[ExportColumns[j]] == fs[j]
    {
      RowOfAt(ExportColumns, fs, j);
    }
  }

  /**
   * Round trip: reading the exported text with `parseCSV` gives one row per
   * booking, in order, mapping each column name to the booking's field.
   */
  lemma ExportRoundTrip(rs: seq<Booking>, printed: string -> string)
    requires rs != []
    requires forall i :: 0 <= i < |rs| ==> Exportable(rs[i], printed)
    ensures var rows := ParseCsv(ExportText(rs, printed).value);
            && |rows| == |rs|
            && forall i :: 0 <= i < |rs| ==> RowMatches(rows[i], rs[i], printed)
  {
    var text := ExportText(rs, printed).value;
    var body := ExportLines(rs, printed);
    ExportPieces(rs, printed);
    LinesOfJoin(ExportedLines(rs, printed));
    ExportHeaders();
    assert ([ExportHeader] + body)[1..] == body;
    assert ParseCsv(text) == RowsOf(ExportColumns, body, Comma);
    forall i | 0 <= i < |rs| ensures RowMatches(ParseCsv(text)[i], rs[i], printed) {
      RowsOfAt(ExportColumns, body, Comma, i);
      ExportLinesAt(rs, printed, i);
      ExportLineReads(rs[i], printed);
      FieldsRow(rs[i], printed);
    }
  }

  /** `row[k0] || row[k1] || ''` when `k0` is no column and `k1` is one holding `v`. */
  lemma SecondColumn(row: Row, k0: string, k1: string, v: string)
    requires k0 !in row && k1 in row && row[k1] == v
    ensures FirstNonEmpty(row, [k0, k1], "") == v
  {
    if v != "" {
      FirstNonEmptyHit(row, [k0, k1], "", 1);
    } else {
      FirstNonEmptyMiss(row, [k0, k1], "");
    }
  }

  /** The Lodgify column names that the export does not write. */
  lemma LodgifyKeysAbsent()
    ensures "SourceText" !in ExportColumns && "Name" !in ExportColumns && "HouseName" !in ExportColumns
    ensures "DateArrival" !in ExportColumns && "DateDeparture" !in ExportColumns
    ensures "TotalAmount" !in ExportColumns && "Total" !in ExportColumns
  {
    assert |"SourceText"| == 10 && |"HouseName"| == 9 && |"DateArrival"| == 11;
    assert |"DateDeparture"| == 13 && |"TotalAmount"| == 11;
    assert "Name" != "Code" && "Total" != "Client";
  }

  /**
   * An exported file loaded again as a Lodgify file gives back each booking's
   * code, client, apartment and dates, but its amount reads as `0`: the export
   * names the column `Montant`, which the Lodgify mapping does not read.
   */
  lemma ReimportAsLodgify(row: Row, r: Booking, printed: string -> string)
    requires RowMatches(row, r, printed)
    ensures LodgifyBooking(row) == Booking(r.code, r.client, r.appartement, r.arrivee, r.depart, "Lodgify", "0")
  {
    ReimportedCells(row, r, printed);
    LodgifyOfSecondColumns(row, r);
  }

  /** A row holding only the second-choice Lodgify columns, and no amount, maps back to the booking. */
  lemma LodgifyOfSecondColumns(row: Row, r: Booking)
    requires "Code" in row && row["Code"] == r.code && "Client" in row && row["Client"] == r.client
    requires "Appartement" in row && row["Appartement"] == r.appartement
    requires "Arrivée" in row && row["Arrivée"] == r.arrivee && "Départ" in row && row["Départ"] == r.depart
    requires "SourceText" !in row && "Name" !in row && "HouseName" !in row
    requires "DateArrival" !in row && "DateDeparture" !in row && "TotalAmount" !in row && "Total" !in row
    ensures LodgifyBooking(row) == Booking(r.code, r.client, r.appartement, r.arrivee, r.depart, "Lodgify", "0")
  {
    SecondColumn(row, "SourceText", "Code", r.code);
    SecondColumn(row, "Name", "Client", r.client);
    SecondColumn(row, "HouseName", "Appartement", r.appartement);
    SecondColumn(row, "DateArrival", "Arrivée", r.arrivee);
    SecondColumn(row, "DateDeparture", "Départ", r.depart);
    FirstNonEmptyMiss(row, ["TotalAmount", "Total"], "0");
  }

  /** The cells of an exported row under the names the Lodgify mapping looks for. */
  lemma ReimportedCells(row: Row, r: Booking, printed: string -> string)
    requires RowMatches(row, r, printed)
    ensures "Code" in row && row["Code"] == r.code && "Client" in row && row["Client"] == r.client
    ensures "Appartement" in row && row["Appartement"] == r.appartement
    ensures "Arrivée" in row && row["Arrivée"] == r.arrivee && "Départ" in row && row["Départ"] == r.depart
    ensures "SourceText" !in row && "Name" !in row && "HouseName" !in row
    ensures "DateArrival" !in row && "DateDeparture" !in row && "TotalAmount" !in row && "Total" !in row
  {
    LodgifyKeysAbsent();
    assert ExportColumns[4] == "Code" && ExportColumns[3] == "Client" && ExportColumns[0] == "Appartement";
    assert ExportColumns[1] == "Arrivée" && ExportColumns[2] == "Départ";
  }

  // ---------------------------------------------------------------------------
  // The page

  /** `parseCSV` on the uploaded text, then the Lodgify mapping of every row. */
  method ReadLodgifyFile(text: string) returns (bookings: seq<Booking>)
    ensures bookings == LodgifyBookings(ParseCsv(text))
    ensures Blank(text) ==> bookings == []
  {
    var rows := ReadCsv(text);
    bookings := LodgifyBookings(rows);
  }

  /** `parseCSV` on the uploaded text, then the Airbnb mapping of every row. */
  method ReadAirbnbFile(text: string) returns (bookings: seq<Booking>)
    ensures bookings == AirbnbBookings(ParseCsv(text))
    ensures Blank(text) ==> bookings == []
  {
    var rows := ReadCsv(text);
    bookings := AirbnbBookings(rows);
  }

  /** The page state: the three lists `useState` holds. */
  class FusionPage {
    var lodgifyData: seq<Booking>
    var airbnbData: seq<Booking>
    var fusedData: seq<Booking>

    constructor()
      ensures lodgifyData == [] && airbnbData == [] && fusedData == []
    {
      lodgifyData := [];
      airbnbData := [];
      fusedData := [];
    }

    /** `handleLodgifyUpload`: no file chosen changes nothing; otherwise the file's bookings replace the list. */
    method LoadLodgify(file: Option<string>)
      modifies this
      ensures file.None? ==> lodgifyData == old(lodgifyData)
      ensures file.Some? ==> lodgifyData == LodgifyBookings(ParseCsv(file.value))
      ensures airbnbData == old(airbnbData) && fusedData == old(fusedData)
    {
      if file.Some? {
        lodgifyData := ReadLodgifyFile(file.value);
      }
    }

    /** `handleAirbnbUpload`. */
    method LoadAirbnb(file: Option<string>)
      modifies this
      ensures file.None? ==> airbnbData == old(airbnbData)
      ensures file.Some? ==> airbnbData == AirbnbBookings(ParseCsv(file.value))
      ensures lodgifyData == old(lodgifyData) && fusedData == old(fusedData)
    {
      if file.Some? {
        airbnbData := ReadAirbnbFile(file.value);
      }
    }

    /**
     * `fusionner`: the Lodgify bookings then the Airbnb ones, sorted. The result
     * holds the same bookings, ordered, with tied bookings in their merged order.
     */
    method Fusionner(date: string -> int)
      modifies this
      ensures fusedData == StableSort(old(lodgifyData) + old(airbnbData), date)
      ensures multiset(fusedData) == multiset(old(lodgifyData)) + multiset(old(airbnbData))
      ensures Sorted(fusedData, date)
      ensures forall y :: Ties(fusedData, y, date) == Ties(old(lodgifyData), y, date) + Ties(old(airbnbData), y, date)
      ensures lodgifyData == old(lodgifyData) && airbnbData == old(airbnbData)
    {
      var all := lodgifyData + airbnbData;
      var a := new Booking[|all|](i requires 0 <= i < |all| => all[i]);
      assert a[..] == all;
      SortInPlace(a, date);
      fusedData := a[..];
      StableSortPermutes(all, date);
      StableSortSorted(all, date);
      forall y ensures Ties(fusedData, y, date) == Ties(lodgifyData, y, date) + Ties(airbnbData, y, date) {
        FusionTies(lodgifyData, airbnbData, y, date);
      }
    }

    /** `exporter`: nothing when there is nothing merged, else the CSV text it offers for download. */
    method Exporter(printed: string -> string) returns (csv: Option<string>)
      ensures csv == ExportText(fusedData, printed)
      ensures csv.None? <==> fusedData == []
    {
      if |fusedData| == 0 {
        return None;
      }
      csv := Some(Join([ExportHeader] + ExportLines(fusedData, printed), "\n"));
    }

    /** `reinitialiser`: all three lists emptied. */
    method Reinitialiser()
      modifies this
      ensures lodgifyData == [] && airbnbData == [] && fusedData == []
    {
      lodgifyData := [];
      airbnbData := [];
      fusedData := [];
    }
  }
}
