/**
  lausa's Expenses (lausa/operations.py): a list of SharedExpense
  operations with a sum, a filter on tags, the list of tags and a tag
  counter. Every member is a pure function of the list.
*/
module Expenses {
  import opened Money
  import opened Operations

  /** An element of Expenses: a SharedExpense operation. */
  type Expense = o: Operation | o.SharedExpense? witness SharedExpense(0, "", "", [])

  /** Expenses.sum: the amounts added up, starting from zero. */
  function Total(es: seq<Expense>): Cents
  {
    if es == [] then 0 else es[0].amount + Total(es[1..])
  }

  /** The sum of a concatenation is the sum of the sums; in particular the empty list sums to 0. */
  lemma {:induction false} TotalConcat(a: seq<Expense>, b: seq<Expense>)
    ensures Total([]) == 0
    ensures Total(a + b) == Total(a) + Total(b)
  {
    if a == [] {
      assert a + b == b;
    } else {
      assert (a + b)[1..] == a[1..] + b;
      TotalConcat(a[1..], b);
    }
  }

  /**
    The argument of filter: None selects untagged expenses, a string the
    expenses carrying that tag, a tuple or list the expenses carrying every
    tag listed.
  */
  datatype TagQuery = Untagged | WithTag(tag: string) | WithAllTags(tags: seq<string>)

  predicate Matches(q: TagQuery, e: Expense)
  {
    match q
    case Untagged => |e.tags| == 0
    case WithTag(t) => t in e.tags
    case WithAllTags(ts) => forall t :: t in ts ==> t in e.tags
  }

  /** The predicate filter keeps by: the match, or its complement when negate is set. */
  predicate Selected(q: TagQuery, negate: bool, e: Expense)
  {
    Matches(q, e) != negate
  }

  /**
    Expenses.filter: the expenses the predicate selects, in their order.
    Every selected expense is kept as often as it occurs and nothing else is.
  */
  function Filter(es: seq<Expense>, q: TagQuery, negate: bool): (r: seq<Expense>)
    ensures |r| <= |es|
    ensures forall e :: multiset(r)[e] == if Selected(q, negate, e) then multiset(es)[e] else 0
  {
    if es == [] then []
    else
      var rest := Filter(es[1..], q, negate);
      assert es == [es[0]] + es[1..];
      if Selected(q, negate, es[0]) then [es[0]] + rest else rest
  }

  /** Filtering a one-element list keeps it exactly when the predicate selects its element. */
  lemma FilterSingle(e: Expense, q: TagQuery, negate: bool)
    ensures Filter([e], q, negate) == if Selected(q, negate, e) then [e] else []
  {
    assert [e][1..] == [];
  }

  /**
    Filtering a concatenation filters each part and keeps them in order;
    with FilterSingle, this fixes the order of the result.
  */
  lemma {:induction false} FilterConcat(a: seq<Expense>, b: seq<Expense>, q: TagQuery, negate: bool)
    ensures Filter(a + b, q, negate) == Filter(a, q, negate) + Filter(b, q, negate)
  {
    if a == [] {
      assert a + b == b;
    } else {
      assert (a + b)[0] == a[0];
      assert (a + b)[1..] == a[1..] + b;
      FilterConcat(a[1..], b, q, negate);
    }
  }

  /**
    filter(x) and filter(x, negate=True) split the list in two: every
    occurrence of an expense lands in exactly one of them.
  */
  lemma FilterPartition(es: seq<Expense>, q: TagQuery)
    ensures multiset(Filter(es, q, false)) + multiset(Filter(es, q, true)) == multiset(es)
    ensures |Filter(es, q, false)| + |Filter(es, q, true)| == |es|
  {
    var kept, dropped := multiset(Filter(es, q, false)), multiset(Filter(es, q, true));
    forall e: Expense
      ensures (kept + dropped)[e] == multiset(es)[e]
    {
      assert Selected(q, false, e) != Selected(q, true, e);
    }
    assert kept + dropped == multiset(es);
  }

  /** The sums of filter(x) and filter(x, negate=True) add up to the sum of the list. */
  lemma {:induction false} FilterTotal(es: seq<Expense>, q: TagQuery)
    ensures Total(Filter(es, q, false)) + Total(Filter(es, q, true)) == Total(es)
  {
    if es != [] {
      FilterTotal(es[1..], q);
      var e := es[0];
      var kept, dropped := Filter(es[1..], q, false), Filter(es[1..], q, true);
      assert ([e] + kept)[1..] == kept;
      assert ([e] + dropped)[1..] == dropped;
    }
  }

  /** tags(unique=False): every tag of every expense, expense after expense. */
  function TagList(es: seq<Expense>): seq<string>
  {
    if es == [] then [] else es[0].tags + TagList(es[1..])
  }

  /** A tag is listed exactly when some expense carries it. */
  lemma {:induction false} TagListMembers(es: seq<Expense>, t: string)
    ensures t in TagList(es) <==> exists i :: 0 <= i < |es| && t in es[i].tags
  {
    if es != [] {
      TagListMembers(es[1..], t);
      if exists i :: 1 <= i < |es| && t in es[i].tags {
        var i :| 1 <= i < |es| && t in es[i].tags;
        assert es[1..][i - 1] == es[i];
      }
    }
  }

  /** The distinct elements of a list, each once. */
  function Unique(s: seq<string>): (r: seq<string>)
    ensures forall t :: t in r <==> t in s
    ensures forall i, j :: 0 <= i < j < |r| ==> r[i] != r[j]
  {
    if s == [] then []
    else
      var rest := Unique(s[1..]);
      if s[0] in rest then rest
      else
        assert forall j :: 1 <= j < |[s[0]] + rest| ==> ([s[0]] + rest)[j] == rest[j - 1];
        [s[0]] + rest
  }

  /**
    Expenses.tags(unique): the tag list, or with unique its distinct tags
    (each tag that occurs, once).
  */
  function Tags(es: seq<Expense>, unique: bool): (r: seq<string>)
    ensures forall t :: t in r <==> t in TagList(es)
    ensures unique ==> forall i, j :: 0 <= i < j < |r| ==> r[i] != r[j]
    ensures !unique ==> r == TagList(es)
  {
    if unique then Unique(TagList(es)) else TagList(es)
  }

  /** How often tag t occurs, counted expense by expense. */
  function Occurrences(es: seq<Expense>, t: string): nat
  {
    if es == [] then 0 else multiset(es[0].tags)[t] + Occurrences(es[1..], t)
  }

  /** Expenses.tag_count: a Counter of the non-unique tag list. */
  function TagCount(es: seq<Expense>): multiset<string>
  {
    multiset(Tags(es, false))
  }

  /** tag_count[t] is the number of occurrences of t over all expenses. */
  lemma {:induction false} TagCountOccurrences(es: seq<Expense>, t: string)
    ensures TagCount(es)[t] == Occurrences(es, t)
  {
    if es != [] {
      TagCountOccurrences(es[1..], t);
      assert TagList(es) == es[0].tags + TagList(es[1..]);
    }
  }

  /**
    When no expense repeats a tag, tag_count[t] is the number of expenses
    that filter(t) selects.
  */
  lemma {:induction false} TagCountFilter(es: seq<Expense>, t: string)
    requires forall k :: 0 <= k < |es| ==> forall i, j :: 0 <= i < j < |es[k].tags| ==> es[k].tags[i] != es[k].tags[j]
    ensures TagCount(es)[t] == |Filter(es, WithTag(t), false)|
  {
    TagCountOccurrences(es, t);
    if es != [] {
      TagCountFilter(es[1..], t);
      TagCountOccurrences(es[1..], t);
      SingleOccurrence(es[0].tags, t);
    }
  }

  /** In a list without repeats, an element occurs once if present and never otherwise. */
  lemma {:induction false} SingleOccurrence(s: seq<string>, t: string)
    requires forall i, j :: 0 <= i < j < |s| ==> s[i] != s[j]
    ensures multiset(s)[t] == if t in s then 1 else 0
  {
    if s != [] {
      assert s == [s[0]] + s[1..];
      SingleOccurrence(s[1..], t);
    }
  }
}
