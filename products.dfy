/** The product record shared by the listing and the detail page, the
    listing's client-side filter, the store query that `fetchProducts`
    builds, and the row lookups and updates both pages perform. */
module Products {
  import opened Wrappers
  import opened Text

  /** A product row. The id type is abstract: the listing declares it a
      number and the grid a string. `upvoted` is the detail page's own
      flag; rows read from the store do not carry it and count as false. */
  datatype Product<Id> = Product(
    id: Id,
    name: string,
    description: string,
    category: string,
    image: string,
    link: string,
    upvotes: int,
    createdAt: string,
    upvoted: bool)

  /** The three filter inputs of the listing. */
  datatype Criteria = Criteria(searchTerm: string, selectedCategory: string, minVotes: int)

  const AllCategories: string := "All"

  /** The listing's state before the user touches a control. */
  const InitialCriteria: Criteria := Criteria("", AllCategories, 0)

  // ---------------------------------------------------------------------
  // Keeping the elements of a sequence that satisfy a test

  function Keep<T(==)>(xs: seq<T>, f: T -> bool): (r: seq<T>)
    ensures |r| <= |xs|
    ensures forall i :: 0 <= i < |r| ==> f(r[i])
    ensures forall i :: 0 <= i < |r| ==> r[i] in xs
    ensures forall i :: 0 <= i < |xs| && f(xs[i]) ==> xs[i] in r
  {
    if |xs| == 0 then [] else (if f(xs[0]) then [xs[0]] else []) + Keep(xs[1..], f)
  }

  /** `a` is `b` with some elements left out and the rest in order. */
  predicate Subsequence<T(==)>(a: seq<T>, b: seq<T>)
    decreases |b|
  {
    |a| == 0 || (|b| > 0 && ((a[0] == b[0] && Subsequence(a[1..], b[1..])) || Subsequence(a, b[1..])))
  }

  lemma {:induction false} SubsequenceRefl<T>(a: seq<T>)
    ensures Subsequence(a, a)
  {
    if |a| > 0 {
      SubsequenceRefl(a[1..]);
    }
  }

  lemma {:induction false} KeepSubsequence<T>(xs: seq<T>, f: T -> bool)
    ensures Subsequence(Keep(xs, f), xs)
  {
    if |xs| > 0 {
      KeepSubsequence(xs[1..], f);
      var r := Keep(xs, f);
      if f(xs[0]) {
        assert r[0] == xs[0] && r[1..] == Keep(xs[1..], f);
      } else {
        assert r == Keep(xs[1..], f);
      }
    }
  }

  lemma {:induction false} KeepMultiset<T>(xs: seq<T>, f: T -> bool)
    ensures forall x :: multiset(Keep(xs, f))[x] == if f(x) then multiset(xs)[x] else 0
  {
    if |xs| > 0 {
      KeepMultiset(xs[1..], f);
      assert xs == [xs[0]] + xs[1..];
    }
  }

  /** Keeping by a stricter test after a looser one is keeping by the
      stricter test alone. */
  lemma {:induction false} KeepStricter<T>(xs: seq<T>, f: T -> bool, g: T -> bool)
    requires forall x :: g(x) ==> f(x)
    ensures Keep(Keep(xs, f), g) == Keep(xs, g)
  {
    if |xs| > 0 {
      KeepStricter(xs[1..], f, g);
      var k := Keep(xs, f);
      if f(xs[0]) {
        assert k[0] == xs[0] && k[1..] == Keep(xs[1..], f);
        assert Keep(k, g) == (if g(xs[0]) then [xs[0]] else []) + Keep(k[1..], g);
      } else {
        assert k == Keep(xs[1..], f);
      }
    }
  }

  lemma {:induction false} KeepAll<T>(xs: seq<T>, f: T -> bool)
    requires forall i :: 0 <= i < |xs| ==> f(xs[i])
    ensures Keep(xs, f) == xs
  {
    if |xs| > 0 {
      KeepAll(xs[1..], f);
      assert xs == [xs[0]] + xs[1..];
    }
  }

  lemma {:induction false} KeepSame<T>(xs: seq<T>, f: T -> bool, g: T -> bool)
    requires forall i :: 0 <= i < |xs| ==> f(xs[i]) == g(xs[i])
    ensures Keep(xs, f) == Keep(xs, g)
  {
    if |xs| > 0 {
      KeepSame(xs[1..], f, g);
    }
  }

  // ---------------------------------------------------------------------
  // The client-side filter (`filteredProducts`)

  /** The listing's test: the lower-cased name contains the lower-cased
      search term, the category is the selected one unless "All" is
      selected, and the upvotes reach the minimum. */
  predicate Matches<Id>(p: Product<Id>, c: Criteria)
  {
    && Contains(Lower(p.name), Lower(c.searchTerm))
    && (c.selectedCategory == AllCategories || p.category == c.selectedCategory)
    && p.upvotes >= c.minVotes
  }

  function Filtered<Id(==)>(ps: seq<Product<Id>>, c: Criteria): seq<Product<Id>>
  {
    Keep(ps, p => Matches(p, c))
  }

  /** The filter keeps exactly the matching products, each as often as
      it occurs, and in their original order. */
  lemma FilteredExact<Id>(ps: seq<Product<Id>>, c: Criteria)
    ensures forall p :: p in Filtered(ps, c) <==> p in ps && Matches(p, c)
    ensures forall p :: multiset(Filtered(ps, c))[p] == if Matches(p, c) then multiset(ps)[p] else 0
    ensures Subsequence(Filtered(ps, c), ps)
  {
    KeepMultiset(ps, p => Matches(p, c));
    KeepSubsequence(ps, p => Matches(p, c));
  }

  lemma FilteredIdempotent<Id>(ps: seq<Product<Id>>, c: Criteria)
    ensures Filtered(Filtered(ps, c), c) == Filtered(ps, c)
  {
    KeepStricter(ps, p => Matches(p, c), p => Matches(p, c));
  }

  lemma ContainsLowerEmpty(s: string)
    ensures Contains(s, Lower(""))
  {
    assert Lower("") == "";
    ContainsEmpty(s);
  }

  /** With the initial criteria nothing with non-negative upvotes is
      filtered out. */
  lemma InitialShowsAll<Id>(ps: seq<Product<Id>>)
    requires forall i :: 0 <= i < |ps| ==> ps[i].upvotes >= 0
    ensures Filtered(ps, InitialCriteria) == ps
  {
    forall i | 0 <= i < |ps|
      ensures Matches(ps[i], InitialCriteria)
    {
      ContainsLowerEmpty(Lower(ps[i].name));
    }
    KeepAll(ps, p => Matches(p, InitialCriteria));
  }

  /** `c2` is at least as strict as `c1`: the same search term, the same
      category or a category chosen where `c1` had "All", and a minimum at
      least as high. */
  predicate Narrower(c2: Criteria, c1: Criteria)
  {
    && c2.searchTerm == c1.searchTerm
    && (c1.selectedCategory == AllCategories || c2.selectedCategory == c1.selectedCategory)
    && c2.minVotes >= c1.minVotes
  }

  /** Raising the minimum or picking a category in place of "All" gives a
      subsequence of the earlier result: filtering the earlier result
      again yields it. */
  lemma NarrowingShrinks<Id>(ps: seq<Product<Id>>, c1: Criteria, c2: Criteria)
    requires Narrower(c2, c1)
    ensures Filtered(ps, c2) == Filtered(Filtered(ps, c1), c2)
    ensures Subsequence(Filtered(ps, c2), Filtered(ps, c1))
  {
    KeepStricter(ps, p => Matches(p, c1), p => Matches(p, c2));
    KeepSubsequence(Filtered(ps, c1), p => Matches(p, c2));
  }

  // ---------------------------------------------------------------------
  // The store query (`fetchProducts`)

  /** The filters a store query carries; None is a filter not added. */
  datatype Condition = Condition(nameLike: Option<string>, category: Option<string>, minUpvotes: Option<int>)

  const NoCondition: Condition := Condition(None, None, None)

  /** A row passes `ilike('name', '%term%')`, `eq('category', …)` and
      `gte('upvotes', …)` for the filters that are present. */
  predicate Admits<Id>(p: Product<Id>, q: Condition)
  {
    && (q.nameLike.Some? ==> Contains(Lower(p.name), Lower(q.nameLike.value)))
    && (q.category.Some? ==> p.category == q.category.value)
    && (q.minUpvotes.Some? ==> p.upvotes >= q.minUpvotes.value)
  }

  /** The query `fetchProducts` sends: a name filter only for a non-empty
      search term, a category filter only when "All" is not selected, and
      a minimum only when it is positive. */
  function ServerQuery(c: Criteria): Condition
  {
    Condition(
      if c.searchTerm != "" then Some(c.searchTerm) else None,
      if c.selectedCategory != AllCategories then Some(c.selectedCategory) else None,
      if c.minVotes > 0 then Some(c.minVotes) else None)
  }

  function Select<Id(==)>(table: seq<Product<Id>>, q: Condition): seq<Product<Id>>
  {
    Keep(table, p => Admits(p, q))
  }

  /** The store query and the client filter agree on every row with
      non-negative upvotes. */
  lemma ServerAgreesWithClient<Id>(p: Product<Id>, c: Criteria)
    requires p.upvotes >= 0
    ensures Admits(p, ServerQuery(c)) <==> Matches(p, c)
  {
    if c.searchTerm == "" {
      ContainsLowerEmpty(Lower(p.name));
    }
  }

  /** A row with negative upvotes passes the initial query but not the
      initial filter. */
  lemma NegativeVotesDiverge<Id>(p: Product<Id>)
    requires p.upvotes < 0
    ensures Admits(p, ServerQuery(InitialCriteria)) && !Matches(p, InitialCriteria)
  {
  }

  lemma SelectIsFiltered<Id>(table: seq<Product<Id>>, c: Criteria)
    requires forall i :: 0 <= i < |table| ==> table[i].upvotes >= 0
    ensures Select(table, ServerQuery(c)) == Filtered(table, c)
  {
    forall i | 0 <= i < |table|
      ensures Admits(table[i], ServerQuery(c)) == Matches(table[i], c)
    {
      ServerAgreesWithClient(table[i], c);
    }
    KeepSame(table, p => Admits(p, ServerQuery(c)), p => Matches(p, c));
  }

  // ---------------------------------------------------------------------
  // Ordering by upvotes, highest first

  predicate SortedByVotes<Id>(ps: seq<Product<Id>>)
  {
    forall i, j :: 0 <= i < j < |ps| ==> ps[i].upvotes >= ps[j].upvotes
  }

  /** Puts `p` before the first row with no more upvotes than it. */
  function Insert<Id>(p: Product<Id>, ps: seq<Product<Id>>): seq<Product<Id>>
  {
    if |ps| == 0 || p.upvotes >= ps[0].upvotes then [p] + ps else [ps[0]] + Insert(p, ps[1..])
  }

  /** `order('upvotes', { ascending: false })`. */
  function SortByVotes<Id>(ps: seq<Product<Id>>): seq<Product<Id>>
  {
    if |ps| == 0 then [] else Insert(ps[0], SortByVotes(ps[1..]))
  }

  lemma {:induction false} InsertPermutes<Id>(p: Product<Id>, ps: seq<Product<Id>>)
    ensures multiset(Insert(p, ps)) == multiset([p] + ps)
    ensures |Insert(p, ps)| == |ps| + 1
  {
    if |ps| > 0 && p.upvotes < ps[0].upvotes {
      InsertPermutes(p, ps[1..]);
      assert ps == [ps[0]] + ps[1..];
    }
  }

  lemma {:induction false} InsertElements<Id>(p: Product<Id>, ps: seq<Product<Id>>)
    ensures forall k :: 0 <= k < |Insert(p, ps)| ==> Insert(p, ps)[k] == p || Insert(p, ps)[k] in ps
  {
    if |ps| > 0 && p.upvotes < ps[0].upvotes {
      InsertElements(p, ps[1..]);
    }
  }

  lemma {:induction false} InsertSorted<Id>(p: Product<Id>, ps: seq<Product<Id>>)
    requires SortedByVotes(ps)
    ensures SortedByVotes(Insert(p, ps))
  {
    if |ps| > 0 && p.upvotes < ps[0].upvotes {
      InsertSorted(p, ps[1..]);
      var t := Insert(p, ps[1..]);
      InsertElements(p, ps[1..]);
      assert forall k :: 0 <= k < |t| ==> ps[0].upvotes >= t[k].upvotes;
      assert Insert(p, ps) == [ps[0]] + t;
    }
  }

  /** The ordering returns the same rows, highest upvotes first. */
  lemma {:induction false} SortByVotesCorrect<Id>(ps: seq<Product<Id>>)
    ensures SortedByVotes(SortByVotes(ps))
    ensures multiset(SortByVotes(ps)) == multiset(ps)
  {
    if |ps| > 0 {
      SortByVotesCorrect(ps[1..]);
      InsertSorted(ps[0], SortByVotes(ps[1..]));
      InsertPermutes(ps[0], SortByVotes(ps[1..]));
      assert ps == [ps[0]] + ps[1..];
    }
  }

  /** The rows a query returns, in the order the store returns them. */
  function RunQuery<Id(==)>(table: seq<Product<Id>>, q: Condition): seq<Product<Id>>
  {
    SortByVotes(Select(table, q))
  }

  /** A query returns each admitted row of the table as often as it
      occurs there and nothing else, highest upvotes first. */
  lemma RunQueryCorrect<Id>(table: seq<Product<Id>>, q: Condition)
    ensures SortedByVotes(RunQuery(table, q))
    ensures forall p :: multiset(RunQuery(table, q))[p] == if Admits(p, q) then multiset(table)[p] else 0
    ensures forall p :: p in RunQuery(table, q) <==> p in table && Admits(p, q)
  {
    SortByVotesCorrect(Select(table, q));
    KeepMultiset(table, p => Admits(p, q));
    forall p
      ensures p in RunQuery(table, q) <==> p in table && Admits(p, q)
    {
      assert p in RunQuery(table, q) <==> p in multiset(RunQuery(table, q));
      assert p in Select(table, q) <==> p in multiset(Select(table, q));
    }
  }

  /** Once fetched with the listing's criteria, rows with non-negative
      upvotes are all shown: the client filter drops nothing. */
  lemma FetchedAllShown<Id>(table: seq<Product<Id>>, c: Criteria)
    requires forall i :: 0 <= i < |table| ==> table[i].upvotes >= 0
    ensures Filtered(RunQuery(table, ServerQuery(c)), c) == RunQuery(table, ServerQuery(c))
  {
    var r := RunQuery(table, ServerQuery(c));
    RunQueryCorrect(table, ServerQuery(c));
    forall i | 0 <= i < |r|
      ensures Matches(r[i], c)
    {
      var x := r[i];
      assert multiset(r)[x] > 0;
      assert multiset(r)[x] == if Admits(x, ServerQuery(c)) then multiset(table)[x] else 0;
      assert multiset(table)[x] > 0;
      assert x in table;
      var k :| 0 <= k < |table| && table[k] == x;
      ServerAgreesWithClient(x, c);
    }
    KeepAll(r, p => Matches(p, c));
  }

  // ---------------------------------------------------------------------
  // Rows by id

  /** The position of the first row with the id, or the length. */
  function IndexOfId<Id(==)>(ps: seq<Product<Id>>, id: Id): (r: nat)
    ensures r <= |ps|
    ensures forall j :: 0 <= j < r ==> ps[j].id != id
    ensures r < |ps| ==> ps[r].id == id
  {
    if |ps| == 0 then 0 else if ps[0].id == id then 0 else 1 + IndexOfId(ps[1..], id)
  }

  /** `ps.find(p => p.id === id)`. */
  function FindById<Id(==)>(ps: seq<Product<Id>>, id: Id): (r: Option<Product<Id>>)
    ensures r.None? <==> forall i :: 0 <= i < |ps| ==> ps[i].id != id
    ensures r.Some? ==> exists i :: 0 <= i < |ps| && ps[i] == r.value && r.value.id == id &&
                          forall j :: 0 <= j < i ==> ps[j].id != id
  {
    var k := IndexOfId(ps, id);
    if k < |ps| then Some(ps[k]) else None
  }

  /** `update({ upvotes: v }).eq('id', id)`: every row with the id gets
      the new count; nothing else changes. */
  function SetUpvotes<Id(==)>(table: seq<Product<Id>>, id: Id, v: int): (r: seq<Product<Id>>)
    ensures |r| == |table|
    ensures forall i :: 0 <= i < |r| ==> r[i].id == table[i].id
  {
    seq(|table|, i requires 0 <= i < |table| => if table[i].id == id then table[i].(upvotes := v) else table[i])
  }

  /** After the update every row with the id carries the new count (so the
      first one is the earlier first row with the new count), every other
      row is as it was, and a table without the id is left as it was. */
  lemma SetUpvotesEffect<Id>(table: seq<Product<Id>>, id: Id, v: int)
    ensures FindById(SetUpvotes(table, id, v), id)
         == match FindById(table, id) case None => None case Some(p) => Some(p.(upvotes := v))
    ensures FindById(table, id).None? ==> SetUpvotes(table, id, v) == table
    ensures forall i :: 0 <= i < |table| && table[i].id != id ==> SetUpvotes(table, id, v)[i] == table[i]
    ensures forall i :: 0 <= i < |table| && table[i].id == id ==> SetUpvotes(table, id, v)[i] == table[i].(upvotes := v)
  {
    var r := SetUpvotes(table, id, v);
    var k := IndexOfId(table, id);
    assert forall j :: 0 <= j < k ==> r[j].id != id;
    if k < |table| {
      assert r[k] == table[k].(upvotes := v);
      assert IndexOfId(r, id) == k by {
        IndexOfIdIs(r, id, k);
      }
    } else {
      assert IndexOfId(r, id) == k by {
        IndexOfIdIs(r, id, k);
      }
      assert r == table;
    }
  }

  lemma IndexOfIdIs<Id>(ps: seq<Product<Id>>, id: Id, k: nat)
    requires k <= |ps|
    requires forall j :: 0 <= j < k ==> ps[j].id != id
    requires k < |ps| ==> ps[k].id == id
    ensures IndexOfId(ps, id) == k
  {
  }
}
