/** The two list reconciliations the page applies to `appointments` after the
    backend acknowledges a change: the status `map` and the delete `filter`. */
module AppointmentList {
  import opened Records

  /** The status the Confirm button sends. */
  const Confirmed: string := "successful"

  /** `list.map(a => a._id === id ? { ...a, status } : a)`. */
  function SetStatus(list: seq<Appointment>, id: string, status: string): (r: seq<Appointment>)
    ensures |r| == |list|
    ensures forall i :: 0 <= i < |list| && list[i].id == id ==>
              r[i].status == status && r[i].(status := list[i].status) == list[i]
    ensures forall i :: 0 <= i < |list| && list[i].id != id ==> r[i] == list[i]
  {
    if list == [] then []
    else
      var head := if list[0].id == id then list[0].(status := status) else list[0];
      [head] + SetStatus(list[1..], id, status)
  }

  /** When no entry carries the id, the status change leaves the list as it was. */
  lemma SetStatusNoMatch(list: seq<Appointment>, id: string, status: string)
    requires forall i :: 0 <= i < |list| ==> list[i].id != id
    ensures SetStatus(list, id, status) == list
  {
  }

  /** The ids, in order, are the same before and after a status change. */
  lemma {:induction false} SetStatusKeepsIds(list: seq<Appointment>, id: string, status: string)
    ensures Ids(SetStatus(list, id, status)) == Ids(list)
  {
    if list != [] {
      SetStatusKeepsIds(list[1..], id, status);
    }
  }

  function Ids(list: seq<Appointment>): (r: seq<string>)
    ensures |r| == |list|
    ensures forall i :: 0 <= i < |list| ==> r[i] == list[i].id
  {
    if list == [] then [] else [list[0].id] + Ids(list[1..])
  }

  /** The number of entries whose id is `id`. */
  function CountId(list: seq<Appointment>, id: string): nat {
    if list == [] then 0
    else (if list[0].id == id then 1 else 0) + CountId(list[1..], id)
  }

  /** `s` is obtained from `t` by dropping some entries, keeping the order of the rest. */
  predicate IsSubsequence<T(==)>(s: seq<T>, t: seq<T>)
    decreases |t|
  {
    if s == [] then true
    else if t == [] then false
    else (s[0] == t[0] && IsSubsequence(s[1..], t[1..])) || IsSubsequence(s, t[1..])
  }

  /** `list.filter(a => a._id !== id)`. */
  function RemoveById(list: seq<Appointment>, id: string): (r: seq<Appointment>)
    ensures forall a :: a in r <==> a in list && a.id != id
    ensures |r| == |list| - CountId(list, id)
    ensures IsSubsequence(r, list)
  {
    if list == [] then []
    else if list[0].id != id then [list[0]] + RemoveById(list[1..], id)
    else RemoveById(list[1..], id)
  }

  /** Deleting from a concatenation deletes from each part: the kept entries stay in order. */
  lemma {:induction false} RemoveByIdAppend(a: seq<Appointment>, b: seq<Appointment>, id: string)
    ensures RemoveById(a + b, id) == RemoveById(a, id) + RemoveById(b, id)
  {
    if a == [] {
      assert a + b == b;
    } else {
      assert (a + b)[0] == a[0];
      assert (a + b)[1..] == a[1..] + b;
      RemoveByIdAppend(a[1..], b, id);
    }
  }

  /** When no entry carries the id, the delete leaves the list as it was. */
  lemma {:induction false} RemoveByIdNoMatch(list: seq<Appointment>, id: string)
    requires forall i :: 0 <= i < |list| ==> list[i].id != id
    ensures RemoveById(list, id) == list
  {
    if list != [] {
      RemoveByIdNoMatch(list[1..], id);
    }
  }

  /** Deleting twice by the same id is the same as deleting once. */
  lemma RemoveByIdIdempotent(list: seq<Appointment>, id: string)
    ensures RemoveById(RemoveById(list, id), id) == RemoveById(list, id)
  {
    var r := RemoveById(list, id);
    forall i | 0 <= i < |r| ensures r[i].id != id {
      assert r[i] in r;
    }
    RemoveByIdNoMatch(r, id);
  }

  /** The scenario of a single pending appointment being confirmed. */
  lemma ConfirmScenario(a1: Appointment)
    requires a1.id == "a1" && a1.status == "pending"
    ensures SetStatus([a1], "a1", Confirmed) == [a1.(status := "successful")]
  {
  }
}
