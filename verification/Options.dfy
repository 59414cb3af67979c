/** Optional values, for the source's `nil` and early returns. */
module Options {

  datatype Option<+T> = None | Some(value: T)

  /** The first value that `f` yields along `s`, if any: the outcome of a loop that returns early. */
  function FirstSome<S, T>(s: seq<S>, f: S -> Option<T>): Option<T>
  {
    if s == [] then None
    else if f(s[0]).Some? then f(s[0])
    else FirstSome(s[1..], f)
  }

  lemma {:induction false} FirstSomeConcat<S, T>(s: seq<S>, t: seq<S>, f: S -> Option<T>)
    ensures FirstSome(s + t, f) == if FirstSome(s, f).Some? then FirstSome(s, f) else FirstSome(t, f)
  {
    if s == [] {
      assert s + t == t;
    } else {
      assert (s + t)[1..] == s[1..] + t;
      FirstSomeConcat(s[1..], t, f);
    }
  }

  /** `FirstSome` is the value at the least index where `f` yields one. */
  lemma {:induction false} FirstSomeIndex<S, T>(s: seq<S>, f: S -> Option<T>) returns (k: nat)
    ensures k <= |s|
    ensures forall i | 0 <= i < k :: f(s[i]).None?
    ensures if k < |s| then f(s[k]).Some? && FirstSome(s, f) == f(s[k]) else FirstSome(s, f) == None
  {
    if s == [] || f(s[0]).Some? {
      k := 0;
    } else {
      var rest := FirstSomeIndex(s[1..], f);
      k := rest + 1;
    }
  }
}
