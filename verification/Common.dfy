/** Shared datatypes. */
module Common {
  /** How many priority levels an engine has. */
  const NUM_LEVELS: nat := 4

  datatype Option<+T> = None | Some(value: T)

  function Bit(b: bool): nat { if b then 1 else 0 }

  /** The items of `s` selected by index, in reverse order. */
  function Reverse<T>(s: seq<T>): (r: seq<T>)
    ensures |r| == |s|
  {
    if s == [] then [] else Reverse(s[1..]) + [s[0]]
  }

  ghost predicate NoDup<T(!new)>(s: seq<T>) {
    forall i, j :: 0 <= i < j < |s| ==> s[i] != s[j]
  }

  lemma {:induction false} ReverseAt<T>(s: seq<T>, i: nat)
    requires i < |s|
    ensures Reverse(s)[i] == s[|s| - 1 - i]
  {
    if i < |s| - 1 { ReverseAt(s[1..], i); }
  }

  lemma ReverseTwice<T>(s: seq<T>)
    ensures Reverse(Reverse(s)) == s
  {
    forall i | 0 <= i < |s| ensures Reverse(Reverse(s))[i] == s[i] {
      ReverseAt(Reverse(s), i);
      ReverseAt(s, |s| - 1 - i);
    }
  }

  lemma {:induction false} ReverseSnoc<T>(s: seq<T>, v: T)
    ensures Reverse(s + [v]) == [v] + Reverse(s)
  {
    if s == [] {
      assert s + [v] == [v];
    } else {
      ReverseSnoc(s[1..], v);
      assert (s + [v])[1..] == s[1..] + [v];
    }
  }
}
