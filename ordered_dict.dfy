/** `collections.OrderedDict` from string keys to string values, as far as the
    script uses it: assignment by key, and iteration in insertion order. */
module OrderedDicts {

  type Entry = (string, string)

  /** The keys of `items`, in order. */
  function KeysOf(items: seq<Entry>): (ks: seq<string>)
    ensures |ks| == |items|
    ensures forall i :: 0 <= i < |items| ==> ks[i] == items[i].0
  {
    if items == [] then [] else [items[0].0] + KeysOf(items[1..])
  }

  /** `d[key] = value`: an existing key keeps its position and takes the new
      value; a new key goes at the end. */
  function Assign(items: seq<Entry>, key: string, value: string): seq<Entry>
  {
    if items == [] then [(key, value)]
    else if items[0].0 == key then [(key, value)] + items[1..]
    else [items[0]] + Assign(items[1..], key, value)
  }

  /** Assigning to a key held at position `m` (its first occurrence) replaces
      that entry and leaves every other entry, and the order, unchanged. */
  lemma {:induction false} AssignExisting(items: seq<Entry>, key: string, value: string, m: nat)
    requires m < |items| && items[m].0 == key
    requires forall j :: 0 <= j < m ==> items[j].0 != key
    ensures Assign(items, key, value) == items[m := (key, value)]
  {
    if m > 0 {
      AssignExisting(items[1..], key, value, m - 1);
      assert items[m := (key, value)] == [items[0]] + items[1..][m - 1 := (key, value)];
    }
  }

  /** Assigning to a key that is not present appends it. */
  lemma {:induction false} AssignNew(items: seq<Entry>, key: string, value: string)
    requires forall j :: 0 <= j < |items| ==> items[j].0 != key
    ensures Assign(items, key, value) == items + [(key, value)]
  {
    if items != [] {
      AssignNew(items[1..], key, value);
      assert items + [(key, value)] == [items[0]] + (items[1..] + [(key, value)]);
    }
  }

  class OrderedDict {
    /** The entries in insertion order. */
    var items: seq<Entry>

    /** `OrderedDict()` */
    constructor ()
      ensures items == []
    {
      items := [];
    }

    /** `self[key] = value` */
    method Set(key: string, value: string)
      modifies this
      ensures items == Assign(old(items), key, value)
    {
      items := Assign(items, key, value);
    }
  }
}
