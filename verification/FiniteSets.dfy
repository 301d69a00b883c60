/** Choosing from finite sets. */
module FiniteSets {

  lemma SomeElement<T>(s: set<T>) returns (x: T)
    requires s != {}
    ensures x in s
  {
    x :| x in s;
  }

  lemma {:induction false} LeastOf(s: set<int>) returns (least: int)
    requires s != {}
    ensures least in s && forall x :: x in s ==> least <= x
    decreases |s|
  {
    least := SomeElement(s);
    var rest := s - {least};
    if rest != {} {
      var other := LeastOf(rest);
      forall x | x in s ensures x == least || other <= x { assert x == least || x in rest; }
      if other < least { least := other; }
    } else {
      forall x | x in s ensures x == least { assert x !in rest; }
    }
  }
}
