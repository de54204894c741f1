/**
 * The administrator's revenue sheet: the lead filter, the single pass that
 * folds enrolments into per-day and per-month buckets, the lifetime total,
 * the list of months offered in the month selector and the day rows shown
 * for the selected month.
 *
 * The two JavaScript objects `revenueByDay` and `revenueByMonth` are modelled
 * as association lists in insertion order (the order `Object.entries` yields
 * for their keys). A day key stands for the `en-GB` date string and a month
 * key for the "Month YYYY" string; both strings are determined by the tuple.
 */
module Revenue {
  import opened Common
  import opened Calendar

  const HalfCleared := "Half_Cleared"
  /** The lead selector's value meaning "no lead filter". */
  const AllLeads := "All"

  /** An enrolment as the sheet reads it; `remark` is `None` when it is not an array. */
  datatype Student = Student(
    lead: Option<string>,
    createdAt: Day,
    programPrice: Option<int>,
    paidAmount: Option<int>,
    status: string,
    remark: Option<seq<string>>)

  // ---------------------------------------------------------------------------
  // The lead list and the lead filter

  /** `[...new Set(students.map(s => s.lead).filter(Boolean))].sort()` */
  function UniqueLeads(ss: seq<Student>): (r: seq<string>)
    ensures StrictlySorted(r)
    ensures forall l :: l in r <==> exists s :: s in ss && Truthy(s.lead) && s.lead.value == l
  {
    if ss == [] then []
    else
      var rest := UniqueLeads(ss[1..]);
      assert forall s :: s in ss <==> s == ss[0] || s in ss[1..];
      if Truthy(ss[0].lead) then InsertSorted(rest, ss[0].lead.value) else rest
  }

  /** The students whose lead equals `lead`, in their original order. */
  function KeepLead(ss: seq<Student>, lead: string): (r: seq<Student>)
    ensures forall s :: s in r <==> s in ss && s.lead == Some(lead)
  {
    if ss == [] then []
    else
      assert ss == [ss[0]] + ss[1..];
      (if ss[0].lead == Some(lead) then [ss[0]] else []) + KeepLead(ss[1..], lead)
  }

  /** Every student of the lead is kept as often as it occurs, every other one never. */
  lemma {:induction false} KeepLeadCounts(ss: seq<Student>, lead: string)
    ensures forall s :: multiset(KeepLead(ss, lead))[s] == if s.lead == Some(lead) then multiset(ss)[s] else 0
    decreases |ss|
  {
    if ss != [] {
      KeepLeadCounts(ss[1..], lead);
      assert ss == [ss[0]] + ss[1..];
      assert multiset(ss) == multiset([ss[0]]) + multiset(ss[1..]);
    }
  }

  /** The filter keeps order: a student added at the end is kept at the end, or dropped. */
  lemma {:induction false} KeepLeadAppend(ss: seq<Student>, s: Student, lead: string)
    ensures KeepLead(ss + [s], lead) == KeepLead(ss, lead) + (if s.lead == Some(lead) then [s] else [])
    decreases |ss|
  {
    var last := if s.lead == Some(lead) then [s] else [];
    if ss == [] {
      assert [s][1..] == [];
      assert KeepLead([s], lead) == last + KeepLead([], lead);
    } else {
      var t := ss + [s];
      var head := if ss[0].lead == Some(lead) then [ss[0]] else [];
      assert t[0] == ss[0] && t[1..] == ss[1..] + [s];
      KeepLeadAppend(ss[1..], s, lead);
      calc {
        KeepLead(t, lead);
        head + KeepLead(ss[1..] + [s], lead);
        head + (KeepLead(ss[1..], lead) + last);
        (head + KeepLead(ss[1..], lead)) + last;
        KeepLead(ss, lead) + last;
      }
    }
  }

  /** `filteredStudents`: everything for "All", otherwise the students of one lead. */
  function FilterByLead(ss: seq<Student>, selected: string): (r: seq<Student>)
    ensures selected == AllLeads ==> r == ss
    ensures selected != AllLeads ==> forall s :: s in r <==> s in ss && s.lead == Some(selected)
    ensures selected != AllLeads ==>
              forall s :: multiset(r)[s] == if s.lead == Some(selected) then multiset(ss)[s] else 0
    ensures multiset(r) <= multiset(ss)
  {
    if selected == AllLeads then ss
    else
      KeepLeadCounts(ss, selected);
      KeepLead(ss, selected)
  }

  /** The filter keeps the source order: a student fetched last is kept last, or dropped. */
  lemma FilterByLeadAppend(ss: seq<Student>, s: Student, selected: string)
    ensures FilterByLead(ss + [s], selected) ==
            FilterByLead(ss, selected) + (if selected == AllLeads || s.lead == Some(selected) then [s] else [])
  {
    if selected != AllLeads {
      KeepLeadAppend(ss, s, selected);
    }
  }

  /** Every truthy lead of a filtered student is one of the unique leads. */
  lemma FilteredLeadsListed(all: seq<Student>, selected: string, s: Student)
    requires s in FilterByLead(all, selected) && Truthy(s.lead)
    ensures s.lead.value in UniqueLeads(all)
  {
    assert s in multiset(FilterByLead(all, selected));
  }

  // ---------------------------------------------------------------------------
  // One enrolment's amounts

  function RevenueOf(s: Student): int {
    OrZero(s.programPrice)
  }

  function BookedOf(s: Student): int {
    OrZero(s.paidAmount)
  }

  predicate LastRemarkHalfCleared(remark: Option<seq<string>>) {
    remark.Some? && |remark.value| > 0 && remark.value[|remark.value| - 1] == HalfCleared
  }

  /** Credited when fully paid, or when the latest remark clears half the fee. */
  predicate IsCredited(s: Student) {
    s.status == FullPaid || LastRemarkHalfCleared(s.remark)
  }

  function CreditedOf(s: Student): (c: int)
    ensures IsCredited(s) ==> c == BookedOf(s)
    ensures !IsCredited(s) ==> c == 0
  {
    if IsCredited(s) then BookedOf(s) else 0
  }

  // ---------------------------------------------------------------------------
  // Buckets

  /** One row of either table; `byLead[j]` counts the payments of lead `leads[j]`. */
  datatype Bucket = Bucket(total: int, booked: int, credited: int, pending: int, payments: int, byLead: seq<int>)

  function SumInts(xs: seq<int>): int {
    if xs == [] then 0 else SumInts(xs[..|xs| - 1]) + xs[|xs| - 1]
  }

  lemma {:induction false} SumIntsIncrement(xs: seq<int>, j: nat)
    requires j < |xs|
    ensures SumInts(xs[j := xs[j] + 1]) == SumInts(xs) + 1
  {
    var ys := xs[j := xs[j] + 1];
    if j < |xs| - 1 {
      assert ys[..|ys| - 1] == xs[..|xs| - 1][j := xs[j] + 1];
      SumIntsIncrement(xs[..|xs| - 1], j);
    } else {
      assert ys[..|ys| - 1] == xs[..|xs| - 1];
    }
  }

  lemma {:induction false} SumIntsZeros(xs: seq<int>)
    requires forall j :: 0 <= j < |xs| ==> xs[j] == 0
    ensures SumInts(xs) == 0
  {
    if xs != [] {
      SumIntsZeros(xs[..|xs| - 1]);
    }
  }

  /** The per-lead payment count summed over all leads. */
  function LeadCount(b: Bucket): int {
    SumInts(b.byLead)
  }

  /** `createPaymentsByLeadObject()`: one zero counter per unique lead, in the leads' order. */
  function NewLeadCounts(leads: seq<string>): (c: seq<int>)
    ensures |c| == |leads|
    ensures forall j :: 0 <= j < |c| ==> c[j] == 0
    ensures SumInts(c) == 0
  {
    var c := seq(|leads|, _ => 0);
    SumIntsZeros(c);
    c
  }

  function EmptyBucket(leads: seq<string>): Bucket {
    Bucket(0, 0, 0, 0, 0, NewLeadCounts(leads))
  }

  function IndexOf(xs: seq<string>, x: string): (j: nat)
    requires x in xs
    ensures j < |xs| && xs[j] == x
  {
    if xs[0] == x then 0 else 1 + IndexOf(xs[1..], x)
  }

  /** The student's lead counts towards a lead column when it is truthy and a column exists. */
  predicate HasListedLead(s: Student, leads: seq<string>) {
    Truthy(s.lead) && s.lead.value in leads
  }

  /** Adds one enrolment to a bucket (lines 79-96). */
  function Record(b: Bucket, s: Student, leads: seq<string>): (r: Bucket)
    requires |b.byLead| == |leads|
    ensures |r.byLead| == |leads|
    ensures r.payments == b.payments + 1
    ensures r.total == b.total + RevenueOf(s)
    ensures r.booked == b.booked + BookedOf(s)
    ensures r.credited == b.credited + CreditedOf(s)
    ensures r.pending == b.pending + RevenueOf(s) - CreditedOf(s)
    ensures forall j :: 0 <= j < |leads| ==>
              r.byLead[j] == b.byLead[j] + (if HasListedLead(s, leads) && j == IndexOf(leads, s.lead.value) then 1 else 0)
    ensures LeadCount(r) == LeadCount(b) + (if HasListedLead(s, leads) then 1 else 0)
  {
    var revenue := RevenueOf(s);
    var credited := CreditedOf(s);
    var byLead :=
      if HasListedLead(s, leads) then
        var j := IndexOf(leads, s.lead.value);
        SumIntsIncrement(b.byLead, j);
        b.byLead[j := b.byLead[j] + 1]
      else b.byLead;
    Bucket(b.total + revenue, b.booked + BookedOf(s), b.credited + credited,
           b.pending + (revenue - credited), b.payments + 1, byLead)
  }

  /** In a list without repeats, the column of a lead is the one holding its name. */
  lemma IndexOfDistinct(xs: seq<string>, x: string, j: nat)
    requires forall a, b :: 0 <= a < b < |xs| ==> xs[a] != xs[b]
    requires j < |xs| && xs[j] == x
    ensures IndexOf(xs, x) == j
  {
  }

  /**
   * Over the sorted lead list, recording a student raises exactly the column
   * named by its lead (`paymentsByLead[student.lead]++`), and no other.
   */
  lemma RecordRaisesOwnColumn(b: Bucket, s: Student, leads: seq<string>, j: nat)
    requires |b.byLead| == |leads| && StrictlySorted(leads) && j < |leads|
    ensures Record(b, s, leads).byLead[j] == b.byLead[j] + (if Truthy(s.lead) && s.lead.value == leads[j] then 1 else 0)
  {
    StrictlySortedDistinct(leads);
    if Truthy(s.lead) && s.lead.value == leads[j] {
      IndexOfDistinct(leads, leads[j], j);
    }
  }

  // ---------------------------------------------------------------------------
  // Keys and the reference fold

  datatype Grain = Daily | Monthly
  datatype Key = DayKey(day: Day) | MonthKey(month: Month)

  function KeyOf(g: Grain, s: Student): Key {
    match g
    case Daily => DayKey(s.createdAt)
    case Monthly => MonthKey(MonthOf(s.createdAt))
  }

  /** The month a key belongs to (the `month` stored in a day bucket). */
  function MonthOfKey(k: Key): Month {
    match k
    case DayKey(d) => MonthOf(d)
    case MonthKey(m) => m
  }

  /** The bucket that key `k` should hold after folding `ss` in order. */
  function Fold(ss: seq<Student>, g: Grain, k: Key, leads: seq<string>): (b: Bucket)
    ensures |b.byLead| == |leads|
    decreases |ss|
  {
    if ss == [] then EmptyBucket(leads)
    else
      var before := Fold(ss[..|ss| - 1], g, k, leads);
      if KeyOf(g, ss[|ss| - 1]) == k then Record(before, ss[|ss| - 1], leads) else before
  }

  lemma FoldAppend(ss: seq<Student>, s: Student, g: Grain, k: Key, leads: seq<string>)
    ensures Fold(ss + [s], g, k, leads) ==
            if KeyOf(g, s) == k then Record(Fold(ss, g, k, leads), s, leads) else Fold(ss, g, k, leads)
  {
    assert (ss + [s])[..|ss|] == ss;
  }

  /** A key no student has folds to the empty bucket. */
  lemma {:induction false} FoldAbsent(ss: seq<Student>, g: Grain, k: Key, leads: seq<string>)
    requires forall i :: 0 <= i < |ss| ==> KeyOf(g, ss[i]) != k
    ensures Fold(ss, g, k, leads) == EmptyBucket(leads)
  {
    if ss != [] {
      FoldAbsent(ss[..|ss| - 1], g, k, leads);
    }
  }

  /** In every bucket, pending = total - credited. */
  lemma {:induction false} FoldPending(ss: seq<Student>, g: Grain, k: Key, leads: seq<string>)
    ensures Fold(ss, g, k, leads).pending == Fold(ss, g, k, leads).total - Fold(ss, g, k, leads).credited
  {
    if ss != [] {
      FoldPending(ss[..|ss| - 1], g, k, leads);
    }
  }

  /** The per-lead counts never exceed the payments, and match them when every
      student of the bucket has a listed lead. */
  lemma {:induction false} FoldLeadCount(ss: seq<Student>, g: Grain, k: Key, leads: seq<string>)
    ensures 0 <= LeadCount(Fold(ss, g, k, leads)) <= Fold(ss, g, k, leads).payments
    ensures (forall i :: 0 <= i < |ss| && KeyOf(g, ss[i]) == k ==> HasListedLead(ss[i], leads)) ==>
              LeadCount(Fold(ss, g, k, leads)) == Fold(ss, g, k, leads).payments
  {
    if ss != [] {
      FoldLeadCount(ss[..|ss| - 1], g, k, leads);
    }
  }

  /** With non-negative payments, a bucket's credited amount lies between 0 and its booked amount. */
  lemma {:induction false} FoldCredited(ss: seq<Student>, g: Grain, k: Key, leads: seq<string>)
    requires forall i :: 0 <= i < |ss| ==> BookedOf(ss[i]) >= 0
    ensures 0 <= Fold(ss, g, k, leads).credited <= Fold(ss, g, k, leads).booked
  {
    if ss != [] {
      FoldCredited(ss[..|ss| - 1], g, k, leads);
    }
  }

  // ---------------------------------------------------------------------------
  // Tables

  datatype Entry = Entry(key: Key, bucket: Bucket)

  function Find(t: seq<Entry>, k: Key): (r: Option<nat>)
    ensures r.Some? ==> r.value < |t| && t[r.value].key == k
    ensures r.None? ==> forall i :: 0 <= i < |t| ==> t[i].key != k
  {
    if t == [] then None
    else if t[0].key == k then Some(0)
    else
      match Find(t[1..], k)
      case None => None
      case Some(i) => Some(i + 1)
  }

  /** A table lists, without repeats, exactly the keys of `ss`, each with its fold. */
  ghost predicate Tabulates(t: seq<Entry>, ss: seq<Student>, g: Grain, leads: seq<string>) {
    && (forall i, j :: 0 <= i < j < |t| ==> t[i].key != t[j].key)
    && (forall i :: 0 <= i < |t| ==> t[i].bucket == Fold(ss, g, t[i].key, leads))
    && (forall i :: 0 <= i < |t| ==> t[i].bucket.payments >= 1)
    && (forall j :: 0 <= j < |ss| ==> Find(t, KeyOf(g, ss[j])).Some?)
  }

  /** `if (!table[key]) table[key] = fresh bucket; table[key] += student` */
  function Upsert(t: seq<Entry>, k: Key, s: Student, leads: seq<string>): (r: seq<Entry>)
    requires forall i :: 0 <= i < |t| ==> |t[i].bucket.byLead| == |leads|
  {
    match Find(t, k)
    case Some(i) => t[i := Entry(k, Record(t[i].bucket, s, leads))]
    case None => t + [Entry(k, Record(EmptyBucket(leads), s, leads))]
  }

  datatype Field = Total | Payments

  function Get(b: Bucket, f: Field): int {
    match f
    case Total => b.total
    case Payments => b.payments
  }

  /** A column summed over all rows of a table. */
  function Sum(t: seq<Entry>, f: Field): int {
    if t == [] then 0 else Sum(t[..|t| - 1], f) + Get(t[|t| - 1].bucket, f)
  }

  lemma {:induction false} SumUpdate(t: seq<Entry>, i: nat, e: Entry, f: Field)
    requires i < |t|
    ensures Sum(t[i := e], f) == Sum(t, f) - Get(t[i].bucket, f) + Get(e.bucket, f)
  {
    var u := t[i := e];
    if i < |t| - 1 {
      assert u[..|u| - 1] == t[..|t| - 1][i := e];
      SumUpdate(t[..|t| - 1], i, e, f);
    } else {
      assert u[..|u| - 1] == t[..|t| - 1];
    }
  }

  lemma SumAppend(t: seq<Entry>, e: Entry, f: Field)
    ensures Sum(t + [e], f) == Sum(t, f) + Get(e.bucket, f)
  {
    assert (t + [e])[..|t|] == t;
  }

  /** The revenue of all students: the running `totalRevenue`. */
  function TotalOf(ss: seq<Student>): int {
    if ss == [] then 0 else TotalOf(ss[..|ss| - 1]) + RevenueOf(ss[|ss| - 1])
  }

  /** Upserting one student moves the payments column by one and the total column by its revenue. */
  lemma UpsertSums(t: seq<Entry>, k: Key, s: Student, leads: seq<string>)
    requires forall i :: 0 <= i < |t| ==> |t[i].bucket.byLead| == |leads|
    ensures Sum(Upsert(t, k, s, leads), Payments) == Sum(t, Payments) + 1
    ensures Sum(Upsert(t, k, s, leads), Total) == Sum(t, Total) + RevenueOf(s)
  {
    match Find(t, k)
    case Some(i) =>
      var e := Entry(k, Record(t[i].bucket, s, leads));
      SumUpdate(t, i, e, Payments);
      SumUpdate(t, i, e, Total);
    case None =>
      var e := Entry(k, Record(EmptyBucket(leads), s, leads));
      SumAppend(t, e, Payments);
      SumAppend(t, e, Total);
  }

  /** The student's key is already in the table: its row takes the student, the others stay exact. */
  lemma TabulatesFound(t: seq<Entry>, ss: seq<Student>, s: Student, g: Grain, leads: seq<string>, i: nat)
    requires Tabulates(t, ss, g, leads)
    requires Find(t, KeyOf(g, s)) == Some(i)
    ensures Tabulates(Upsert(t, KeyOf(g, s), s, leads), ss + [s], g, leads)
  {
    var k := KeyOf(g, s);
    var ss' := ss + [s];
    var u := Upsert(t, k, s, leads);
    forall m | 0 <= m < |t|
      ensures Fold(ss', g, t[m].key, leads) ==
              if t[m].key == k then Record(t[m].bucket, s, leads) else t[m].bucket
    {
      FoldAppend(ss, s, g, t[m].key, leads);
    }
    forall j | 0 <= j < |ss'| ensures Find(u, KeyOf(g, ss'[j])).Some? {
      if j < |ss| {
        assert ss'[j] == ss[j];
        var m := Find(t, KeyOf(g, ss[j])).value;
        assert u[m].key == KeyOf(g, ss'[j]);
      } else {
        assert u[i].key == KeyOf(g, ss'[j]);
      }
    }
  }

  /** The student's key is new: one row is appended holding just that student. */
  lemma TabulatesFresh(t: seq<Entry>, ss: seq<Student>, s: Student, g: Grain, leads: seq<string>)
    requires Tabulates(t, ss, g, leads)
    requires Find(t, KeyOf(g, s)).None?
    ensures Tabulates(Upsert(t, KeyOf(g, s), s, leads), ss + [s], g, leads)
  {
    var k := KeyOf(g, s);
    var ss' := ss + [s];
    var u := Upsert(t, k, s, leads);
    var e := Entry(k, Record(EmptyBucket(leads), s, leads));
    forall m | 0 <= m < |t| ensures Fold(ss', g, t[m].key, leads) == t[m].bucket {
      FoldAppend(ss, s, g, t[m].key, leads);
    }
    forall j | 0 <= j < |ss| ensures KeyOf(g, ss[j]) != k {
      var m := Find(t, KeyOf(g, ss[j])).value;
      assert t[m].key == KeyOf(g, ss[j]);
    }
    FoldAbsent(ss, g, k, leads);
    FoldAppend(ss, s, g, k, leads);
    assert u[|t|] == e;
    forall j | 0 <= j < |ss'| ensures Find(u, KeyOf(g, ss'[j])).Some? {
      if j < |ss| {
        assert ss'[j] == ss[j];
        var m := Find(t, KeyOf(g, ss[j])).value;
        assert u[m].key == KeyOf(g, ss'[j]);
      } else {
        assert u[|t|].key == KeyOf(g, ss'[j]);
      }
    }
  }

  /** Folding one more student keeps the table exact and moves each column sum by that student. */
  lemma TabulatesStep(t: seq<Entry>, ss: seq<Student>, s: Student, g: Grain, leads: seq<string>)
    requires Tabulates(t, ss, g, leads)
    ensures Tabulates(Upsert(t, KeyOf(g, s), s, leads), ss + [s], g, leads)
    ensures Sum(Upsert(t, KeyOf(g, s), s, leads), Payments) == Sum(t, Payments) + 1
    ensures Sum(Upsert(t, KeyOf(g, s), s, leads), Total) == Sum(t, Total) + RevenueOf(s)
  {
    UpsertSums(t, KeyOf(g, s), s, leads);
    match Find(t, KeyOf(g, s))
    case Some(i) => TabulatesFound(t, ss, s, g, leads, i);
    case None => TabulatesFresh(t, ss, s, g, leads);
  }

  /** Properties every bucket of an exact table has. */
  lemma TabulatedBuckets(t: seq<Entry>, ss: seq<Student>, g: Grain, leads: seq<string>)
    requires Tabulates(t, ss, g, leads)
    ensures forall i :: 0 <= i < |t| ==> t[i].bucket.pending == t[i].bucket.total - t[i].bucket.credited
    ensures forall i :: 0 <= i < |t| ==> 0 <= LeadCount(t[i].bucket) <= t[i].bucket.payments
    ensures (forall j :: 0 <= j < |ss| ==> HasListedLead(ss[j], leads)) ==>
              forall i :: 0 <= i < |t| ==> LeadCount(t[i].bucket) == t[i].bucket.payments
    ensures forall i :: 0 <= i < |t| ==> exists j :: 0 <= j < |ss| && KeyOf(g, ss[j]) == t[i].key
  {
    forall i | 0 <= i < |t|
      ensures t[i].bucket.pending == t[i].bucket.total - t[i].bucket.credited
      ensures 0 <= LeadCount(t[i].bucket) <= t[i].bucket.payments
      ensures (forall j :: 0 <= j < |ss| ==> HasListedLead(ss[j], leads)) ==>
                LeadCount(t[i].bucket) == t[i].bucket.payments
      ensures exists j :: 0 <= j < |ss| && KeyOf(g, ss[j]) == t[i].key
    {
      FoldPending(ss, g, t[i].key, leads);
      FoldLeadCount(ss, g, t[i].key, leads);
      if forall j :: 0 <= j < |ss| ==> KeyOf(g, ss[j]) != t[i].key {
        FoldAbsent(ss, g, t[i].key, leads);
      }
    }
  }

  // ---------------------------------------------------------------------------
  // Key order: `Object.entries` lists string keys in insertion order

  /** The keys of a table, row by row. */
  function KeysOf(t: seq<Entry>): (ks: seq<Key>)
    ensures |ks| == |t| && forall i :: 0 <= i < |t| ==> ks[i] == t[i].key
  {
    seq(|t|, i requires 0 <= i < |t| => t[i].key)
  }

  /** The distinct keys of `ss`, in the order in which each first occurs. */
  function FirstKeys(ss: seq<Student>, g: Grain): seq<Key> {
    if ss == [] then []
    else
      var ks := FirstKeys(ss[..|ss| - 1], g);
      if KeyOf(g, ss[|ss| - 1]) in ks then ks else ks + [KeyOf(g, ss[|ss| - 1])]
  }

  /** `FirstKeys` lists every key of `ss`, each once. */
  lemma {:induction false} FirstKeysMembers(ss: seq<Student>, g: Grain)
    ensures forall i, j :: 0 <= i < j < |FirstKeys(ss, g)| ==> FirstKeys(ss, g)[i] != FirstKeys(ss, g)[j]
    ensures forall k :: k in FirstKeys(ss, g) <==> exists q :: 0 <= q < |ss| && KeyOf(g, ss[q]) == k
  {
    if ss != [] {
      var n := |ss| - 1;
      var pre := ss[..n];
      var ks' := FirstKeys(pre, g);
      FirstKeysMembers(pre, g);
      forall x ensures x in FirstKeys(ss, g) <==> exists q :: 0 <= q < |ss| && KeyOf(g, ss[q]) == x {
        if x in ks' {
          var q :| 0 <= q < |pre| && KeyOf(g, pre[q]) == x;
          assert KeyOf(g, ss[q]) == x;
        }
        if exists q :: 0 <= q < |ss| && KeyOf(g, ss[q]) == x {
          var q :| 0 <= q < |ss| && KeyOf(g, ss[q]) == x;
          if q < n {
            assert KeyOf(g, pre[q]) == x;
          }
        }
      }
    }
  }

  /** A key comes before another in `FirstKeys` only if it occurs in `ss` before the other's every occurrence. */
  lemma {:induction false} FirstKeysPrecede(ss: seq<Student>, g: Grain)
    ensures forall i, j, q :: 0 <= i < j < |FirstKeys(ss, g)| && 0 <= q < |ss| && KeyOf(g, ss[q]) == FirstKeys(ss, g)[j] ==>
              exists p :: 0 <= p < q && KeyOf(g, ss[p]) == FirstKeys(ss, g)[i]
  {
    if ss != [] {
      var n := |ss| - 1;
      var pre := ss[..n];
      var ks' := FirstKeys(pre, g);
      var ks := FirstKeys(ss, g);
      var k := KeyOf(g, ss[n]);
      FirstKeysMembers(pre, g);
      FirstKeysPrecede(pre, g);
      forall i, j, q | 0 <= i < j < |ks| && 0 <= q < |ss| && KeyOf(g, ss[q]) == ks[j]
        ensures exists p :: 0 <= p < q && KeyOf(g, ss[p]) == ks[i]
      {
        assert ks[i] == ks'[i] && ks'[i] in ks';
        var p0 :| 0 <= p0 < |pre| && KeyOf(g, pre[p0]) == ks'[i];
        if q < n {
          assert KeyOf(g, pre[q]) == ks[j];
          if j < |ks'| {
            assert KeyOf(g, pre[q]) == ks'[j];
            var p :| 0 <= p < q && KeyOf(g, pre[p]) == ks'[i];
            assert KeyOf(g, ss[p]) == ks[i];
          } else {
            assert false;
          }
        } else if j < |ks'| {
          assert ks'[j] in ks';
          var q' :| 0 <= q' < |pre| && KeyOf(g, pre[q']) == ks'[j];
          var p :| 0 <= p < q' && KeyOf(g, pre[p]) == ks'[i];
          assert KeyOf(g, ss[p]) == ks[i];
        } else {
          assert KeyOf(g, ss[p0]) == ks[i];
        }
      }
    }
  }

  /** `Upsert` keeps the existing keys in place and appends a new key at the end. */
  lemma UpsertKeys(t: seq<Entry>, k: Key, s: Student, leads: seq<string>)
    requires forall i :: 0 <= i < |t| ==> |t[i].bucket.byLead| == |leads|
    ensures KeysOf(Upsert(t, k, s, leads)) == if k in KeysOf(t) then KeysOf(t) else KeysOf(t) + [k]
  {
    match Find(t, k)
    case Some(i) =>
      assert KeysOf(t)[i] == k;
      assert KeysOf(Upsert(t, k, s, leads)) == KeysOf(t);
    case None =>
      assert k !in KeysOf(t);
      assert KeysOf(Upsert(t, k, s, leads)) == KeysOf(t) + [k];
  }

  /** Folding one more student extends the key order the way `Upsert` extends the table. */
  lemma FirstKeysSnoc(ss: seq<Student>, s: Student, g: Grain)
    ensures FirstKeys(ss + [s], g) == if KeyOf(g, s) in FirstKeys(ss, g) then FirstKeys(ss, g) else FirstKeys(ss, g) + [KeyOf(g, s)]
  {
    assert (ss + [s])[..|ss|] == ss;
  }

  /** The state of the `forEach` pass after the students `ss`. */
  ghost predicate Folded(days: seq<Entry>, months: seq<Entry>, totalRevenue: int, ss: seq<Student>, leads: seq<string>) {
    && Tabulates(days, ss, Daily, leads)
    && Tabulates(months, ss, Monthly, leads)
    && KeysOf(days) == FirstKeys(ss, Daily) && KeysOf(months) == FirstKeys(ss, Monthly)
    && totalRevenue == TotalOf(ss)
    && Sum(days, Payments) == |ss| && Sum(months, Payments) == |ss|
    && Sum(days, Total) == totalRevenue && Sum(months, Total) == totalRevenue
  }

  lemma FoldedStep(days: seq<Entry>, months: seq<Entry>, totalRevenue: int, ss: seq<Student>, s: Student, leads: seq<string>)
    requires Folded(days, months, totalRevenue, ss, leads)
    ensures Folded(Upsert(days, KeyOf(Daily, s), s, leads), Upsert(months, KeyOf(Monthly, s), s, leads),
                   totalRevenue + RevenueOf(s), ss + [s], leads)
  {
    TabulatesStep(days, ss, s, Daily, leads);
    TabulatesStep(months, ss, s, Monthly, leads);
    UpsertKeys(days, KeyOf(Daily, s), s, leads);
    UpsertKeys(months, KeyOf(Monthly, s), s, leads);
    FirstKeysSnoc(ss, s, Daily);
    FirstKeysSnoc(ss, s, Monthly);
    assert (ss + [s])[..|ss|] == ss;
  }

  /** One turn of the pass: folding student `n` extends the state from the first `n` students to `n + 1`. */
  lemma FoldedPrefix(days: seq<Entry>, months: seq<Entry>, totalRevenue: int, ss: seq<Student>, n: nat, leads: seq<string>)
    requires n < |ss| && Folded(days, months, totalRevenue, ss[..n], leads)
    ensures Folded(Upsert(days, KeyOf(Daily, ss[n]), ss[n], leads), Upsert(months, KeyOf(Monthly, ss[n]), ss[n], leads),
                   totalRevenue + RevenueOf(ss[n]), ss[..n + 1], leads)
  {
    FoldedStep(days, months, totalRevenue, ss[..n], ss[n], leads);
    PrefixSnoc(ss, n);
  }

  lemma PrefixSnoc(ss: seq<Student>, n: nat)
    requires n < |ss|
    ensures ss[..n + 1] == ss[..n] + [ss[n]]
  {
  }

  /**
   * The `forEach` pass over the filtered students (lines 60-99): builds both
   * tables and the running total.
   */
  method Aggregate(filtered: seq<Student>, leads: seq<string>)
      returns (days: seq<Entry>, months: seq<Entry>, totalRevenue: int)
    ensures Tabulates(days, filtered, Daily, leads)
    ensures Tabulates(months, filtered, Monthly, leads)
    ensures KeysOf(days) == FirstKeys(filtered, Daily) && KeysOf(months) == FirstKeys(filtered, Monthly)
    ensures totalRevenue == TotalOf(filtered)
    ensures Sum(days, Payments) == |filtered| && Sum(months, Payments) == |filtered|
    ensures Sum(days, Total) == totalRevenue && Sum(months, Total) == totalRevenue
  {
    days, months, totalRevenue := [], [], 0;
    var n := 0;
    while n < |filtered|
      invariant 0 <= n <= |filtered|
      invariant Folded(days, months, totalRevenue, filtered[..n], leads)
    {
      var s := filtered[n];
      FoldedPrefix(days, months, totalRevenue, filtered, n, leads);
      days := Upsert(days, KeyOf(Daily, s), s, leads);
      months := Upsert(months, KeyOf(Monthly, s), s, leads);
      totalRevenue := totalRevenue + RevenueOf(s);
      n := n + 1;
    }
    assert filtered[..n] == filtered;
  }

  // ---------------------------------------------------------------------------
  // Reading the tables

  /** `revenueByMonth[month] || { zeros }` (line 237). */
  function MonthRow(months: seq<Entry>, m: Month, leads: seq<string>): Bucket {
    match Find(months, MonthKey(m))
    case Some(i) => months[i].bucket
    case None => EmptyBucket(leads)
  }

  /** The row shown for any month is the fold of that month's students. */
  lemma MonthRowIsFold(months: seq<Entry>, ss: seq<Student>, m: Month, leads: seq<string>)
    requires Tabulates(months, ss, Monthly, leads)
    ensures MonthRow(months, m, leads) == Fold(ss, Monthly, MonthKey(m), leads)
  {
    if Find(months, MonthKey(m)).None? {
      forall j | 0 <= j < |ss| ensures KeyOf(Monthly, ss[j]) != MonthKey(m) {
        var i := Find(months, KeyOf(Monthly, ss[j])).value;
        assert months[i].key == KeyOf(Monthly, ss[j]);
      }
      FoldAbsent(ss, Monthly, MonthKey(m), leads);
    }
  }

  /** `selectedMonth || currentMonth` */
  function ShownMonth(selected: Option<Month>, current: Month): Month {
    if selected.Some? then selected.value else current
  }

  /** `filteredDailyRevenue`: the day rows of one month, in table order. */
  function DailyRows(days: seq<Entry>, target: Month): (r: seq<Entry>)
    ensures forall e :: e in r <==> e in days && MonthOfKey(e.key) == target
    ensures |r| <= |days|
  {
    if days == [] then []
    else
      assert forall e :: e in days <==> e == days[0] || e in days[1..];
      (if MonthOfKey(days[0].key) == target then [days[0]] else []) + DailyRows(days[1..], target)
  }

  /** Each day bucket of the month appears as often as in the table (once, in an exact table), and no other. */
  lemma {:induction false} DailyRowsCounts(days: seq<Entry>, target: Month)
    ensures forall e :: multiset(DailyRows(days, target))[e] == if MonthOfKey(e.key) == target then multiset(days)[e] else 0
    decreases |days|
  {
    if days != [] {
      DailyRowsCounts(days[1..], target);
      assert days == [days[0]] + days[1..];
    }
  }

  /** The day rows keep the table's order: a bucket added last is shown last, if it is in the month. */
  lemma {:induction false} DailyRowsAppend(days: seq<Entry>, e: Entry, target: Month)
    ensures DailyRows(days + [e], target) == DailyRows(days, target) + (if MonthOfKey(e.key) == target then [e] else [])
    decreases |days|
  {
    if days == [] {
      assert DailyRows([e], target) == (if MonthOfKey(e.key) == target then [e] else []) + DailyRows([], target);
    } else {
      assert (days + [e])[0] == days[0];
      assert (days + [e])[1..] == days[1..] + [e];
      DailyRowsAppend(days[1..], e, target);
    }
  }

  // ---------------------------------------------------------------------------
  // The month selector

  /** `Math.min(...createdAt)` as a day. */
  function Earliest(ss: seq<Student>): (d: Day)
    requires |ss| > 0
    ensures exists i :: 0 <= i < |ss| && ss[i].createdAt == d
    ensures forall i :: 0 <= i < |ss| ==> DayLe(d, ss[i].createdAt)
  {
    if |ss| == 1 then ss[0].createdAt
    else
      var rest := Earliest(ss[1..]);
      assert forall i :: 1 <= i < |ss| ==> ss[i] == ss[1..][i - 1];
      if DayLe(ss[0].createdAt, rest) then ss[0].createdAt else rest
  }

  function Max(a: int, b: int): int {
    if a < b then b else a
  }

  /**
   * The nested loops of lines 120-128: every month from `current` back to
   * `start`, newest first.
   */
  method MonthsBack(current: Month, start: Month) returns (months: seq<Month>)
    requires ValidMonth(current) && ValidMonth(start)
    ensures |months| == Max(0, MonthOrd(current) - MonthOrd(start) + 1)
    ensures forall i :: 0 <= i < |months| ==>
              ValidMonth(months[i]) && MonthOrd(months[i]) == MonthOrd(current) - i
  {
    months := [];
    var year := current.year;
    while year >= start.year
      invariant year <= current.year
      invariant year >= start.year - 1 || year == current.year
      invariant |months| == Max(0, MonthOrd(current) + 1 - Max(MonthOrd(start), 12 * (year + 1)))
      invariant forall i :: 0 <= i < |months| ==>
                  ValidMonth(months[i]) && MonthOrd(months[i]) == MonthOrd(current) - i
      decreases year - start.year
    {
      var endMonth := if year == current.year then current.month else 11;
      var beginMonth := if year == start.year then start.month else 0;
      var month := endMonth;
      while month >= beginMonth
        invariant month <= endMonth
        invariant month >= beginMonth - 1 || month == endMonth
        invariant month < endMonth ==> |months| == MonthOrd(current) - (12 * year + month)
        invariant month == endMonth ==>
                    |months| == Max(0, MonthOrd(current) + 1 - Max(MonthOrd(start), 12 * (year + 1)))
        invariant forall i :: 0 <= i < |months| ==>
                    ValidMonth(months[i]) && MonthOrd(months[i]) == MonthOrd(current) - i
        decreases month
      {
        months := months + [Month(year, month)];
        month := month - 1;
      }
      year := year - 1;
    }
  }

  /** The oldest month offered: the earliest enrolment's, or the current month without students. */
  function FirstMonth(filtered: seq<Student>, now: Day): (m: Month)
    ensures |filtered| == 0 ==> m == MonthOf(now)
    ensures |filtered| > 0 ==> exists i :: 0 <= i < |filtered| && m == MonthOf(filtered[i].createdAt)
  {
    if |filtered| > 0 then MonthOf(Earliest(filtered)) else MonthOf(now)
  }

  /** The selector's list: every month from the current one back to the first, newest first, none skipped. */
  predicate OffersMonths(months: seq<Month>, filtered: seq<Student>, now: Day) {
    && |months| == Max(0, MonthOrd(MonthOf(now)) - MonthOrd(FirstMonth(filtered, now)) + 1)
    && forall i :: 0 <= i < |months| ==>
         ValidMonth(months[i]) && MonthOrd(months[i]) == MonthOrd(MonthOf(now)) - i
  }

  /** The months offered by the selector (lines 102-128). */
  method MonthOptions(filtered: seq<Student>, now: Day) returns (months: seq<Month>)
    requires ValidDay(now)
    requires forall i :: 0 <= i < |filtered| ==> ValidDay(filtered[i].createdAt)
    ensures OffersMonths(months, filtered, now)
    ensures |filtered| == 0 ==> months == [MonthOf(now)]
  {
    var earliest := now;
    if |filtered| > 0 {
      earliest := Earliest(filtered);
    }
    months := MonthsBack(MonthOf(now), MonthOf(earliest));
    if |filtered| == 0 {
      MonthOrdInjective(months[0], MonthOf(now));
    }
  }

  /** Every month that holds an enrolment not after today is offered by the selector. */
  lemma OptionsCoverEnrolments(filtered: seq<Student>, now: Day, months: seq<Month>, j: nat)
    requires ValidDay(now) && j < |filtered|
    requires forall i :: 0 <= i < |filtered| ==> ValidDay(filtered[i].createdAt)
    requires OffersMonths(months, filtered, now)
    requires DayLe(filtered[j].createdAt, now)
    ensures MonthOf(filtered[j].createdAt) in months
  {
    var d := filtered[j].createdAt;
    DayLeMonth(Earliest(filtered), d);
    DayLeMonth(d, now);
    var i := MonthOrd(MonthOf(now)) - MonthOrd(MonthOf(d));
    MonthOrdInjective(months[i], MonthOf(d));
  }

  // ---------------------------------------------------------------------------
  // The whole sheet

  datatype Sheet = Sheet(
    leads: seq<string>,
    students: seq<Student>,
    days: seq<Entry>,
    months: seq<Entry>,
    totalRevenue: int,
    monthOptions: seq<Month>,
    dailyRows: seq<Entry>)

  /** What the sheet computes from the fetched enrolments and the two selectors. */
  method BuildSheet(all: seq<Student>, selectedLead: string, selectedMonth: Option<Month>, now: Day)
      returns (sheet: Sheet)
    requires ValidDay(now)
    requires forall i :: 0 <= i < |all| ==> ValidDay(all[i].createdAt)
    ensures sheet.leads == UniqueLeads(all)
    ensures sheet.students == FilterByLead(all, selectedLead)
    ensures Tabulates(sheet.days, sheet.students, Daily, sheet.leads)
    ensures Tabulates(sheet.months, sheet.students, Monthly, sheet.leads)
    ensures KeysOf(sheet.days) == FirstKeys(sheet.students, Daily)
    ensures KeysOf(sheet.months) == FirstKeys(sheet.students, Monthly)
    ensures sheet.totalRevenue == TotalOf(sheet.students)
    ensures Sum(sheet.months, Total) == sheet.totalRevenue
    ensures Sum(sheet.months, Payments) == |sheet.students|
    ensures forall i :: 0 <= i < |sheet.months| ==>
              sheet.months[i].bucket.pending == sheet.months[i].bucket.total - sheet.months[i].bucket.credited
    ensures forall i :: 0 <= i < |sheet.days| ==>
              sheet.days[i].bucket.pending == sheet.days[i].bucket.total - sheet.days[i].bucket.credited
    ensures forall i :: 0 <= i < |sheet.months| ==>
              0 <= LeadCount(sheet.months[i].bucket) <= sheet.months[i].bucket.payments
    ensures (forall j :: 0 <= j < |sheet.students| ==> Truthy(sheet.students[j].lead)) ==>
              forall i :: 0 <= i < |sheet.months| ==> LeadCount(sheet.months[i].bucket) == sheet.months[i].bucket.payments
    ensures |sheet.students| == 0 ==> sheet.monthOptions == [MonthOf(now)]
    ensures OffersMonths(sheet.monthOptions, sheet.students, now)
    ensures sheet.dailyRows == DailyRows(sheet.days, ShownMonth(selectedMonth, MonthOf(now)))
  {
    var leads := UniqueLeads(all);
    var filtered := FilterByLead(all, selectedLead);
    var days, months, total := Aggregate(filtered, leads);
    TabulatedBuckets(days, filtered, Daily, leads);
    TabulatedBuckets(months, filtered, Monthly, leads);
    if forall j :: 0 <= j < |filtered| ==> Truthy(filtered[j].lead) {
      forall j | 0 <= j < |filtered| ensures HasListedLead(filtered[j], leads) {
        FilteredLeadsListed(all, selectedLead, filtered[j]);
      }
    }
    forall i | 0 <= i < |filtered| ensures ValidDay(filtered[i].createdAt) {
      assert filtered[i] in multiset(all);
    }
    var options := MonthOptions(filtered, now);
    var rows := DailyRows(days, ShownMonth(selectedMonth, MonthOf(now)));
    sheet := Sheet(leads, filtered, days, months, total, options, rows);
  }
}
