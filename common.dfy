/** Small shared vocabulary: optional values, results of fallible steps, and the
    dynamically typed values that travel in the system's dictionaries. */
module Common {

  datatype Option<+T> = None | Some(value: T)

  /** The outcome of a step that either returns a value or raises with a message. */
  datatype Result<+T> = Ok(value: T) | Raised(message: string)

  /** A value stored in a dictionary whose values are of any type. The core only ever
      asks whether such a value is a string (and which one); every other kind of value
      is `NonText`. */
  datatype Value = Text(text: string) | NonText

  /** A dictionary from string keys to values of any type (`dict[str, Any]`). */
  type Payload = map<string, Value>

  /** Python truthiness of an optional string: present and non-empty. */
  predicate Truthy(s: Option<string>)
  {
    s.Some? && s.value != ""
  }

  /** A UTC timestamp as the system writes it: the ISO reading of the clock followed by
      "Z". It is never empty. */
  function Stamp(iso: string): (r: string)
    ensures |r| == |iso| + 1 && r[|iso|] == 'Z'
  {
    iso + "Z"
  }

  /** The elements of a sequence, as a set. */
  function Elems<T>(s: seq<T>): set<T>
  {
    set i | 0 <= i < |s| :: s[i]
  }

  /** No element occurs twice. */
  predicate Distinct<T(==)>(s: seq<T>)
  {
    forall i, j :: 0 <= i < j < |s| ==> s[i] != s[j]
  }

  lemma ElemsAppend<T>(s: seq<T>, x: T)
    ensures Elems(s + [x]) == Elems(s) + {x}
  {
    assert (s + [x])[|s|] == x;
    assert forall i :: 0 <= i < |s| ==> (s + [x])[i] == s[i];
  }

  /** Sequences with the same multiset of elements have the same elements. */
  lemma SameElements<T>(a: seq<T>, b: seq<T>)
    requires multiset(a) == multiset(b)
    ensures forall t :: t in a <==> t in b
  {
    assert forall t :: t in a <==> t in multiset(a);
    assert forall t :: t in b <==> t in multiset(b);
  }
}
