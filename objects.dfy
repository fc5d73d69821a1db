/**
 * The JavaScript values this core handles: pattern objects, client
 * configuration objects and target ids. An object is the list of its own
 * fields in insertion order. That is the order `_.keys` reports for keys
 * that are not array indices; JavaScript lists array-index keys such as
 * `"2"` first, in numeric order, which this model does not do.
 */
module Objects {

  datatype Value =
    | Undefined
    | Text(s: string)
    | Number(n: int)
    | Flag(b: bool)
    | Record(fields: seq<Field>)

  type Field = (string, Value)

  /** `obj[k]`: the value of the field named `k`, `undefined` when there is none. */
  function Get(obj: seq<Field>, k: string): Value
  {
    if obj == [] then Undefined
    else if obj[0].0 == k then obj[0].1
    else Get(obj[1..], k)
  }

  predicate HasKey(obj: seq<Field>, k: string)
  {
    exists i :: 0 <= i < |obj| && obj[i].0 == k
  }

  /** `obj[k] = v`: an existing field keeps its place and takes the new value; a new field goes last. */
  function Set(obj: seq<Field>, k: string, v: Value): seq<Field>
  {
    if obj == [] then [(k, v)]
    else if obj[0].0 == k then [(k, v)] + obj[1..]
    else [obj[0]] + Set(obj[1..], k, v)
  }

  /** JavaScript truthiness (`!x` is false), for the values modelled here. */
  predicate Truthy(v: Value)
  {
    match v
    case Undefined => false
    case Text(s) => s != ""
    case Number(n) => n != 0
    case Flag(b) => b
    case Record(_) => true
  }

  /** A JavaScript object never has two fields with the same key. */
  predicate DistinctKeys(obj: seq<Field>)
  {
    forall i, j :: 0 <= i < j < |obj| ==> obj[i].0 != obj[j].0
  }

  /** Reading a field after assigning one: the assigned key reads back the new value, every other key is unaffected. */
  lemma {:induction false} GetAfterSet(obj: seq<Field>, k: string, v: Value, k': string)
    ensures Get(Set(obj, k, v), k') == if k' == k then v else Get(obj, k')
  {
    if obj != [] && obj[0].0 != k {
      GetAfterSet(obj[1..], k, v, k');
    }
  }

  /** Assigning a key the object does not have appends exactly one field. */
  lemma {:induction false} SetNewKeyAppends(obj: seq<Field>, k: string, v: Value)
    requires !HasKey(obj, k)
    ensures Set(obj, k, v) == obj + [(k, v)]
  {
    if obj != [] {
      assert !HasKey(obj[1..], k);
      SetNewKeyAppends(obj[1..], k, v);
      assert obj == [obj[0]] + obj[1..];
    }
  }

  /** In an object with distinct keys, each field is what its key reads. */
  lemma {:induction false} GetField(obj: seq<Field>, p: Field)
    requires DistinctKeys(obj) && p in obj
    ensures Get(obj, p.0) == p.1
  {
    var i :| 0 <= i < |obj| && obj[i] == p;
    if i > 0 {
      assert obj[0].0 != obj[i].0;
      assert obj[1..][i - 1] == p;
      assert DistinctKeys(obj[1..]) by {
        forall a, b | 0 <= a < b < |obj[1..]|
          ensures obj[1..][a].0 != obj[1..][b].0
        {
          assert obj[1..][a] == obj[a + 1] && obj[1..][b] == obj[b + 1];
        }
      }
      GetField(obj[1..], p);
    }
  }
}
