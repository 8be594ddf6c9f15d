/** The staff card of one doctor's queue (src/components/DoctorQueueCard.tsx):
    splitting the doctor's patients into waiting and served, and the
    drag-and-drop reorder that renumbers the waiting list. */
module DoctorQueueCard {
  import opened Common
  import opened Types

  function IsActiveFor(doctorId: string): Patient -> bool
  {
    (p: Patient) => !p.served && p.doctorId == doctorId
  }

  function IsServedFor(doctorId: string): Patient -> bool
  {
    (p: Patient) => p.served && p.doctorId == doctorId
  }

  function IsFor(doctorId: string): Patient -> bool
  {
    (p: Patient) => p.doctorId == doctorId
  }

  /** activePatients: this doctor's patients not yet served, in list order. */
  function ActivePatients(patients: seq<Patient>, doctorId: string): seq<Patient>
  {
    Filter(patients, IsActiveFor(doctorId))
  }

  /** servedPatients: this doctor's served patients, in list order. */
  function ServedPatients(patients: seq<Patient>, doctorId: string): seq<Patient>
  {
    Filter(patients, IsServedFor(doctorId))
  }

  /** The two lists partition the doctor's patients: every one of them is in
      exactly one of the lists, and the counts add up. */
  lemma {:induction false} ActiveServedPartition(patients: seq<Patient>, doctorId: string)
    ensures multiset(ActivePatients(patients, doctorId)) + multiset(ServedPatients(patients, doctorId))
         == multiset(Filter(patients, IsFor(doctorId)))
    ensures |ActivePatients(patients, doctorId)| + |ServedPatients(patients, doctorId)|
         == |Filter(patients, IsFor(doctorId))|
  {
    if patients != [] {
      ActiveServedPartition(patients[..|patients| - 1], doctorId);
    }
  }

  /** splice(i, 1): the list without its i-th element. */
  function RemoveAt<T>(s: seq<T>, i: nat): (r: seq<T>)
    requires i < |s|
    ensures |r| == |s| - 1
    ensures forall k :: 0 <= k < |r| ==> r[k] == if k < i then s[k] else s[k + 1]
    ensures multiset(r) + multiset{s[i]} == multiset(s)
  {
    assert s == s[..i] + [s[i]] + s[i + 1..];
    s[..i] + s[i + 1..]
  }

  /** splice(j, 0, x): the list with x inserted before its j-th element. */
  function InsertAt<T>(s: seq<T>, j: nat, x: T): (r: seq<T>)
    requires j <= |s|
    ensures |r| == |s| + 1
    ensures r[j] == x
    ensures forall k :: 0 <= k < j ==> r[k] == s[k]
    ensures forall k :: j < k < |r| ==> r[k] == s[k - 1]
    ensures multiset(r) == multiset(s) + multiset{x}
  {
    assert s == s[..j] + s[j..];
    s[..j] + [x] + s[j..]
  }

  /** Where the item at index k after a drag from i to j came from: the
      dragged item lands at j, the items between the two indexes shift by
      one towards the vacated slot, and every other item stays put. */
  function Origin(i: nat, j: nat, k: nat): nat
  {
    if k == j then i
    else if i <= k < j then k + 1
    else if j < k <= i then k - 1
    else k
  }

  /** Origin is a bijection on the indexes of a list of length n. */
  lemma OriginIsPermutation(n: nat, i: nat, j: nat)
    requires i < n && j < n
    ensures forall k :: 0 <= k < n ==> Origin(i, j, k) < n
    ensures forall a, b :: 0 <= a < n && 0 <= b < n && a != b ==> Origin(i, j, a) != Origin(i, j, b)
  {
  }

  /** The index map of dragging back from j to i undoes that of dragging
      from i to j. */
  lemma OriginInverse(i: nat, j: nat, k: nat)
    ensures Origin(i, j, Origin(j, i, k)) == k
  {
  }

  /** The two splices of handleDragEnd: remove the item at index i, then
      insert it at index j. The result holds the item that Origin names at
      every index, and is a permutation of the input. */
  function Move<T>(s: seq<T>, i: nat, j: nat): (r: seq<T>)
    requires i < |s| && j < |s|
    ensures |r| == |s|
    ensures forall k :: 0 <= k < |r| ==> Origin(i, j, k) < |s| && r[k] == s[Origin(i, j, k)]
    ensures multiset(r) == multiset(s)
  {
    var rest := RemoveAt(s, i);
    var r := InsertAt(rest, j, s[i]);
    r
  }

  /** Dropping an item where it was picked up changes nothing. */
  lemma MoveInPlace<T>(s: seq<T>, i: nat)
    requires i < |s|
    ensures Move(s, i, i) == s
  {
  }

  /** Dragging the item back from the destination to the source restores
      the original order. */
  lemma MoveBack<T>(s: seq<T>, i: nat, j: nat)
    requires i < |s| && j < |s|
    ensures Move(Move(s, i, j), j, i) == s
  {
    var r, t := Move(s, i, j), Move(Move(s, i, j), j, i);
    forall k | 0 <= k < |s|
      ensures t[k] == s[k]
    {
      OriginInverse(i, j, k);
    }
  }

  /** The map that sets position = index + 1, so that positions become
      1..N in list order; nothing but the position changes. */
  function Renumber(s: seq<Patient>): (r: seq<Patient>)
    ensures |r| == |s|
    ensures forall k :: 0 <= k < |r| ==> r[k] == s[k].(position := k + 1)
  {
    if s == [] then []
    else Renumber(s[..|s| - 1]) + [s[|s| - 1].(position := |s|)]
  }

  /** handleDragEnd: without a destination nothing is reordered (None).
      Otherwise the waiting list after the drag: the patient at each index
      k is the one Origin names, with position k + 1, so positions run
      1..N without gap or duplicate and only positions change. The drag
      library reports both indexes inside the list. */
  function HandleDragEnd(active: seq<Patient>, source: nat, destination: Option<nat>): (r: Option<seq<Patient>>)
    requires source < |active|
    requires destination.Some? ==> destination.value < |active|
    ensures destination.None? <==> r.None?
    ensures r.Some? ==> |r.value| == |active|
    ensures r.Some? ==> forall k :: 0 <= k < |r.value| ==>
      Origin(source, destination.value, k) < |active| &&
      r.value[k] == active[Origin(source, destination.value, k)].(position := k + 1)
  {
    if destination.None? then None
    else Some(Renumber(Move(active, source, destination.value)))
  }
}
