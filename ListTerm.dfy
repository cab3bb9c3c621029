/**
 * The list-literal term of src/main/java/au/com/codeka/carrot/expr/ListTerm.java.
 * Evaluating it applies the scope to each item term; the lazy list view the
 * source returns is modelled as the finished list it would show. Terms and
 * values are type parameters: what the scope does with a term is not part of
 * this model.
 */
module ListTerm {

  /** A list literal: the item terms in source order. */
  datatype ListTerm<T> = ListTerm(items: seq<T>)

  /** ListTerm.evaluate: the scope applied to every item, in order. */
  function Evaluate<T, V>(term: ListTerm<T>, scope: T -> V): (r: seq<V>)
    ensures |r| == |term.items|
    ensures forall i :: 0 <= i < |r| ==> r[i] == scope(term.items[i])
  {
    MapItems(term.items, scope)
  }

  /** Lists.transform read element by element, front to back. */
  function MapItems<T, V>(items: seq<T>, scope: T -> V): (r: seq<V>)
    ensures |r| == |items|
    ensures forall i :: 0 <= i < |r| ==> r[i] == scope(items[i])
  {
    if items == [] then [] else [scope(items[0])] + MapItems(items[1..], scope)
  }

  /** An empty list literal evaluates to the empty list. */
  lemma EvaluateEmpty<T, V>(scope: T -> V)
    ensures Evaluate(ListTerm([]), scope) == []
  {
  }

  /** Evaluation distributes over concatenation of the item lists: each item is
      evaluated on its own, so where it stands does not change its value. */
  lemma {:induction false} EvaluateAppend<T, V>(a: seq<T>, b: seq<T>, scope: T -> V)
    ensures Evaluate(ListTerm(a + b), scope) == Evaluate(ListTerm(a), scope) + Evaluate(ListTerm(b), scope)
  {
    var r := Evaluate(ListTerm(a + b), scope);
    var s := Evaluate(ListTerm(a), scope) + Evaluate(ListTerm(b), scope);
    assert |r| == |s|;
    forall i | 0 <= i < |r|
      ensures r[i] == s[i]
    {
      if i < |a| {
        assert (a + b)[i] == a[i];
      } else {
        assert (a + b)[i] == b[i - |a|];
      }
    }
  }

  /** ListTerm.toString: the item list as Java's AbstractCollection.toString writes it,
      `[` then the items' own strings separated by `, ` then `]`. How a single term
      prints is the parameter `show`. */
  function ToString<T>(term: ListTerm<T>, show: T -> string): (r: string)
    ensures |r| >= 2 && r[0] == '[' && r[|r| - 1] == ']'
    ensures term.items == [] ==> r == "[]"
    ensures |term.items| == 1 ==> r == "[" + show(term.items[0]) + "]"
  {
    "[" + Join(term.items, show) + "]"
  }

  /** The items' strings, separated by `, `. */
  function Join<T>(items: seq<T>, show: T -> string): (r: string)
    ensures items == [] ==> r == ""
    ensures |items| == 1 ==> r == show(items[0])
    ensures |items| > 0 ==> |r| >= 2 * (|items| - 1)
  {
    if items == [] then ""
    else if |items| == 1 then show(items[0])
    else show(items[0]) + ", " + Join(items[1..], show)
  }

  /** Join read from the back: more than one item gives the join of all but the last,
      one separator, then the last item's string. With the front-first definition,
      every item's string is separated from the next by exactly one `, `. */
  lemma JoinLast<T>(items: seq<T>, show: T -> string)
    requires |items| > 1
    ensures Join(items, show) == Join(items[..|items| - 1], show) + ", " + show(items[|items| - 1])
  {
    var n := |items| - 1;
    assert items == items[..n] + [items[n]];
    JoinAppend(items[..n], [items[n]], show);
  }

  /** Joining two non-empty runs of items puts one separator between them. */
  lemma {:induction false} JoinAppend<T>(a: seq<T>, b: seq<T>, show: T -> string)
    requires a != [] && b != []
    ensures Join(a + b, show) == Join(a, show) + ", " + Join(b, show)
  {
    if |a| == 1 {
      assert (a + b)[1..] == b;
    } else {
      assert (a + b)[1..] == a[1..] + b;
      JoinAppend(a[1..], b, show);
    }
  }
}
