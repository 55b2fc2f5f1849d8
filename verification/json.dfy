/** The slice of an ArduinoJson object that the advertisement handler uses:
    an ordered list of key/value members, built by assignment and trimmed by
    `remove`. Serialisation is not modelled. */
module Json {

  datatype Value = Str(s: string) | Int(i: int)

  datatype Member = Member(key: string, value: Value)

  /** Members in insertion order. */
  type Object = seq<Member>

  function Keys(o: Object): set<string> {
    set m | m in o :: m.key
  }

  /** `JsonObject::remove(key)`: drops the member with that key (every one, in
      case a decoder produced it twice) and keeps the rest in order. */
  function Remove(o: Object, key: string): (r: Object)
    ensures forall m :: m in r <==> m in o && m.key != key
    ensures Keys(r) == Keys(o) - {key}
    ensures |r| <= |o|
  {
    if o == [] then []
    else (if o[0].key == key then [] else [o[0]]) + Remove(o[1..], key)
  }

  /** Several `remove` calls in a row. */
  function RemoveAll(o: Object, keys: seq<string>): (r: Object)
    ensures forall m :: m in r <==> m in o && m.key !in keys
    ensures Keys(r) == Keys(o) - set k | k in keys
    decreases keys
  {
    if keys == [] then o else RemoveAll(Remove(o, keys[0]), keys[1..])
  }

  /** Removal keeps the relative order of what it keeps. */
  lemma {:induction false} RemoveAppend(a: Object, b: Object, key: string)
    ensures Remove(a + b, key) == Remove(a, key) + Remove(b, key)
  {
    if a == [] {
      assert a + b == b;
    } else {
      assert (a + b)[1..] == a[1..] + b;
      RemoveAppend(a[1..], b, key);
    }
  }

  /** Removing a key that is not there leaves the object as it was. */
  lemma {:induction false} RemoveAbsent(o: Object, key: string)
    requires key !in Keys(o)
    ensures Remove(o, key) == o
  {
    if o != [] {
      assert o[0] in o;
      assert Keys(o[1..]) <= Keys(o) by {
        forall k | k in Keys(o[1..]) ensures k in Keys(o) {
          var m :| m in o[1..] && m.key == k;
          assert m in o;
        }
      }
      RemoveAbsent(o[1..], key);
    }
  }
}
