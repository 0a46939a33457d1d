/** Facts about sequences that Dafny is better told than left to find. */
module Sequences {
  lemma ConsAppend<T>(first: seq<T>, rest: seq<T>)
    requires first != []
    ensures first + rest == [first[0]] + (first[1..] + rest)
  {
  }

  lemma AppendEmpty<T>(first: seq<T>, rest: seq<T>)
    requires first == []
    ensures first + rest == rest
  {
  }

  lemma Regroup<T>(first: seq<T>, middle: seq<T>, last: seq<T>)
    ensures (first + middle) + last == first + (middle + last)
  {
  }
}
