/** Samples of a metrics exposition. */
module Exposition {
  datatype Label = Label(name: string, value: string)

  /** A parsed sample value: a real, or NaN or an infinity. */
  datatype Number = Finite(value: real) | NotFinite(text: string)

  datatype ScrapedSample = ScrapedSample(name: string, labels: seq<Label>, value: Number)

  predicate FiniteNonnegative(n: Number) {
    n.Finite? && n.value >= 0.0
  }

  ghost predicate DistinctNames(labels: seq<Label>) {
    forall i, j :: 0 <= i < j < |labels| ==> labels[i].name != labels[j].name
  }

  /** Go's map of a label list: a later label of the same name wins; a missing name reads as empty. */
  function Lookup(labels: seq<Label>, name: string): string {
    if labels == [] then ""
    else if labels[|labels| - 1].name == name then labels[|labels| - 1].value
    else Lookup(labels[..|labels| - 1], name)
  }

  predicate HasLabel(labels: seq<Label>, name: string) {
    exists i :: 0 <= i < |labels| && labels[i].name == name
  }

  lemma {:induction false} LookupFinds(labels: seq<Label>, i: nat)
    requires DistinctNames(labels) && i < |labels|
    ensures Lookup(labels, labels[i].name) == labels[i].value
  {
    if i < |labels| - 1 {
      LookupFinds(labels[..|labels| - 1], i);
    }
  }

  lemma {:induction false} LookupMisses(labels: seq<Label>, name: string)
    requires !HasLabel(labels, name)
    ensures Lookup(labels, name) == ""
  {
    if labels != [] {
      assert labels[|labels| - 1].name != name;
      LookupMisses(labels[..|labels| - 1], name);
    }
  }

  /** Label order does not matter to a lookup. */
  lemma {:induction false} LookupOfPermutation(a: seq<Label>, b: seq<Label>, name: string)
    requires DistinctNames(a) && DistinctNames(b) && multiset(a) == multiset(b)
    ensures Lookup(a, name) == Lookup(b, name) && (HasLabel(a, name) <==> HasLabel(b, name))
  {
    forall l ensures l in a <==> l in b {
      assert l in multiset(a) <==> l in multiset(b);
    }
    if HasLabel(a, name) {
      var i :| 0 <= i < |a| && a[i].name == name;
      assert a[i] in b;
      var j :| 0 <= j < |b| && b[j] == a[i];
      LookupFinds(a, i);
      LookupFinds(b, j);
    } else {
      forall j | 0 <= j < |b| ensures b[j].name != name {
        NamedMember(a, b, j, name);
      }
      LookupMisses(a, name);
      LookupMisses(b, name);
    }
  }

  lemma {:induction false} NamedMember(a: seq<Label>, b: seq<Label>, j: nat, name: string)
    requires j < |b| && b[j] in a
    ensures b[j].name == name ==> HasLabel(a, name)
  {
  }
}
