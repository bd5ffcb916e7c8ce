/** The few general-purpose types and facts the other modules share. */
module Prelude {

  datatype Option<+T> = None | Some(value: T)

  lemma Regroup<T>(a: seq<T>, b: seq<T>, c: seq<T>)
    ensures a + b + c == a + (b + c)
  {
  }

  lemma OnlyElement<T>(s: set<T>, x: T)
    requires x in s && |s| <= 1
    ensures s == {x}
  {
    assert |s - {x}| == 0;
  }
}
