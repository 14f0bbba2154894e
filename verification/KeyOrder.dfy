/** The order in which an ordered map lists its keys: by their character codes. */
module KeyOrder {
  import opened Wrappers
  import opened Lexicographic

  function Codes(a: Id): seq<int> {
    seq(|a|, i requires 0 <= i < |a| => a[i] as int)
  }

  predicate Before(a: Id, b: Id) {
    Less(Codes(a), Codes(b))
  }

  lemma BeforeTotal(a: Id, b: Id)
    ensures a == b || Before(a, b) || Before(b, a)
    ensures !(Before(a, b) && Before(b, a))
  {
    LessTotal(Codes(a), Codes(b));
    if Codes(a) == Codes(b) {
      assert forall i :: 0 <= i < |a| ==> Codes(a)[i] == a[i] as int && Codes(b)[i] == b[i] as int;
    }
  }

  lemma BeforeTransitive(a: Id, b: Id, c: Id)
    requires Before(a, b) && Before(b, c)
    ensures Before(a, c)
  {
    LessTransitive(Codes(a), Codes(b), Codes(c));
  }

  predicate First(s: set<Id>, m: Id) {
    m in s && forall k :: k in s && k != m ==> Before(m, k)
  }

  lemma FirstExists(s: set<Id>) returns (m: Id)
    requires s != {}
    ensures First(s, m)
  {
    var x :| x in s;
    if s == {x} { m := x; }
    else {
      var y := FirstExists(s - {x});
      BeforeTotal(x, y);
      m := if Before(x, y) then x else y;
      forall k | k in s && k != m ensures Before(m, k) {
        if Before(x, y) && k != y { BeforeTransitive(x, y, k); }
      }
    }
  }

  lemma FirstUnique(s: set<Id>, a: Id, b: Id)
    requires First(s, a) && First(s, b)
    ensures a == b
  {
    BeforeTotal(a, b);
  }

  lemma FirstThere(s: set<Id>)
    ensures s != {} ==> exists m :: First(s, m)
  {
    if s != {} { var m := FirstExists(s); }
  }
}
