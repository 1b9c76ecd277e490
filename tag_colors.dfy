/**
 * The delay-to-colour table: an ordered list of (colour, threshold) pairs,
 * scanned in declaration order for the first threshold at least the delay.
 * The last threshold is unbounded.
 */
module TagColors {
  import opened Wrappers

  /** A table entry; `limit == None` is the unbounded threshold. */
  datatype Tag = Tag(color: string, limit: Option<int>)

  const Grey := "#909399"
  const Green := "#00c520"
  const Orange := "#ff9a28"
  const Red := "#ff3e5e"

  /** The table, in declaration order. */
  const Table: seq<Tag> := [Tag(Grey, Some(0)), Tag(Green, Some(260)), Tag(Orange, Some(600)), Tag(Red, None)]

  /** The entry accepts the delay: its threshold is at least the delay. */
  predicate Admits(t: Tag, delay: int) {
    t.limit.None? || delay <= t.limit.value
  }

  /** Index of the first entry that admits `delay`, if any. */
  function FirstAdmitting(table: seq<Tag>, delay: int): (r: Option<nat>)
    ensures r.Some? ==> r.value < |table| && Admits(table[r.value], delay)
    ensures r.Some? ==> forall j :: 0 <= j < r.value ==> !Admits(table[j], delay)
    ensures r.None? ==> forall j :: 0 <= j < |table| ==> !Admits(table[j], delay)
  {
    if table == [] then None
    else if Admits(table[0], delay) then Some(0)
    else match FirstAdmitting(table[1..], delay)
      case None => None
      case Some(k) => Some(k + 1)
  }

  /** The colour of the first entry that admits `delay`; none when no entry does. */
  function Lookup(table: seq<Tag>, delay: int): (r: Option<string>)
    ensures r.Some? <==> exists j :: 0 <= j < |table| && Admits(table[j], delay)
  {
    match FirstAdmitting(table, delay)
    case None => None
    case Some(k) => Some(table[k].color)
  }

  /** The colour the widget derives for `delay`. */
  function ColorOf(delay: int): Option<string> {
    Lookup(Table, delay)
  }

  /** A table that ends with an unbounded entry admits every delay. */
  lemma UnboundedLastEntryAlwaysMatches(table: seq<Tag>, delay: int)
    requires |table| > 0 && table[|table| - 1].limit.None?
    ensures FirstAdmitting(table, delay).Some?
    ensures Lookup(table, delay).Some?
  {
  }

  /**
   * In any table, a larger delay never selects an earlier entry than a
   * smaller delay, and a smaller delay is admitted whenever a larger one is.
   */
  lemma LookupMonotone(table: seq<Tag>, d1: int, d2: int)
    requires d1 <= d2
    requires FirstAdmitting(table, d2).Some?
    ensures FirstAdmitting(table, d1).Some?
    ensures FirstAdmitting(table, d1).value <= FirstAdmitting(table, d2).value
  {
  }

  /** The colour bands of the widget's table, the non-positive delays included. */
  lemma ColorBands(delay: int)
    ensures ColorOf(delay) == Some(
              if delay <= 0 then Grey
              else if delay <= 260 then Green
              else if delay <= 600 then Orange
              else Red)
  {
    var k :| FirstAdmitting(Table, delay) == Some(k) by {
      UnboundedLastEntryAlwaysMatches(Table, delay);
    }
    assert Admits(Table[k], delay);
    if delay <= 0 {
      assert k == 0;
    } else if delay <= 260 {
      assert !Admits(Table[0], delay) && Admits(Table[1], delay);
      assert k == 1;
    } else if delay <= 600 {
      assert !Admits(Table[1], delay) && Admits(Table[2], delay);
      assert k == 2;
    } else {
      assert !Admits(Table[2], delay);
      assert k == 3;
    }
  }

  /** The widget always finds a colour, and it is one of the table's four. */
  lemma ColorAlwaysExists(delay: int)
    ensures ColorOf(delay).Some?
    ensures ColorOf(delay).value in {Grey, Green, Orange, Red}
  {
    ColorBands(delay);
  }
}
