/** JSON values as `json.load` hands them to the translators: the value
    kinds of section 3 of RFC 8259 (object, array, string, number, and
    the literals true, false and null). An object keeps its members in
    document order. A key may occur more than once, as it may in the text:
    the dict `json.load` builds keeps only the last value of a repeated
    key, so a lookup reads the last member with the key (`Config.Lookup`),
    and the walks over all members match the source on objects whose keys
    are distinct. */
module JsonTree {

  datatype Json =
    | JObject(members: seq<Member>)
    | JArray(items: seq<Json>)
    | JString(text: string)
    | JNumber(literal: string)
    | JBool(b: bool)
    | JNull
  {
    /** `isinstance(v, (dict, list))` */
    predicate IsContainer() { JObject? || JArray? }
  }

  datatype Member = Member(key: string, value: Json)

  /** Every string leaf of a value, at any depth, in document order
      (a string value is its own only leaf). */
  function Leaves(v: Json): seq<string>
  {
    match v
    case JObject(ms) => MemberLeaves(ms)
    case JArray(items) => ItemLeaves(items)
    case JString(s) => [s]
    case _ => []
  }

  function MemberLeaves(ms: seq<Member>): seq<string>
  {
    if ms == [] then [] else Leaves(ms[0].value) + MemberLeaves(ms[1..])
  }

  function ItemLeaves(items: seq<Json>): seq<string>
  {
    if items == [] then [] else Leaves(items[0]) + ItemLeaves(items[1..])
  }

  /** The leaves of consecutive members are laid end to end. */
  lemma {:induction false} MemberLeavesAppend(a: seq<Member>, b: seq<Member>)
    ensures MemberLeaves(a + b) == MemberLeaves(a) + MemberLeaves(b)
  {
    if a != [] {
      MemberLeavesAppend(a[1..], b);
      assert (a + b)[0] == a[0] && (a + b)[1..] == a[1..] + b;
    } else {
      assert a + b == b;
    }
  }

  /** The leaves of consecutive items are laid end to end. */
  lemma {:induction false} ItemLeavesAppend(a: seq<Json>, b: seq<Json>)
    ensures ItemLeaves(a + b) == ItemLeaves(a) + ItemLeaves(b)
  {
    if a != [] {
      ItemLeavesAppend(a[1..], b);
      assert (a + b)[0] == a[0] && (a + b)[1..] == a[1..] + b;
    } else {
      assert a + b == b;
    }
  }

  /** `b` has the shape of `a`: the same kind at every position, objects
      with the same keys in the same order, arrays of the same length,
      and every leaf that is not a string unchanged. String leaves may
      differ. */
  predicate SameShape(a: Json, b: Json)
  {
    match a
    case JObject(ms) => b.JObject? && SameMembers(ms, b.members)
    case JArray(items) => b.JArray? && SameItems(items, b.items)
    case JString(_) => b.JString?
    case _ => b == a
  }

  predicate SameMembers(ms: seq<Member>, ns: seq<Member>)
  {
    |ms| == |ns| &&
    (ms != [] ==>
      ms[0].key == ns[0].key && SameShape(ms[0].value, ns[0].value) &&
      SameMembers(ms[1..], ns[1..]))
  }

  predicate SameItems(items: seq<Json>, others: seq<Json>)
  {
    |items| == |others| &&
    (items != [] ==> SameShape(items[0], others[0]) && SameItems(items[1..], others[1..]))
  }
}
