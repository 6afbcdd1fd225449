/** The product detail page: the upvote toggle, the rewrite of the list
    kept in browser storage, the category icon lookup and the choice of
    the stored copy of the product on load. Browser storage is an object
    holding the decoded list. */
module ProductDetail {
  import opened Wrappers
  import opened Products

  // ---------------------------------------------------------------------
  // The toggle

  /** The record `handleUpvote` builds: the vote flag flipped and the
      count moved one step towards the new flag. */
  function Toggle<Id>(p: Product<Id>): Product<Id>
  {
    p.(upvotes := if p.upvoted then p.upvotes - 1 else p.upvotes + 1, upvoted := !p.upvoted)
  }

  /** The toggle flips the flag, adds one when the flag was clear and
      takes one away when it was set, and changes no other field. */
  lemma ToggleEffect<Id>(p: Product<Id>)
    ensures Toggle(p).upvoted == !p.upvoted
    ensures !p.upvoted ==> Toggle(p).upvotes == p.upvotes + 1
    ensures p.upvoted ==> Toggle(p).upvotes == p.upvotes - 1
    ensures Toggle(p).id == p.id && Toggle(p).name == p.name && Toggle(p).description == p.description
    ensures Toggle(p).category == p.category && Toggle(p).image == p.image && Toggle(p).link == p.link
    ensures Toggle(p).createdAt == p.createdAt
  {
  }

  lemma ToggleTwice<Id>(p: Product<Id>)
    ensures Toggle(Toggle(p)) == p
  {
  }

  /** A set flag means at least one vote, and counts are never negative. */
  predicate VoteInvariant<Id>(p: Product<Id>)
  {
    (p.upvoted ==> p.upvotes >= 1) && p.upvotes >= 0
  }

  lemma ToggleKeepsInvariant<Id>(p: Product<Id>)
    requires VoteInvariant(p)
    ensures VoteInvariant(Toggle(p))
  {
  }

  // ---------------------------------------------------------------------
  // Rewriting the stored list

  /** `stored.map(p => p.id === u.id ? u : p)`. */
  function ReplaceById<Id(==)>(s: seq<Product<Id>>, u: Product<Id>): (r: seq<Product<Id>>)
    ensures |r| == |s|
    ensures forall i :: 0 <= i < |s| && s[i].id == u.id ==> r[i] == u
    ensures forall i :: 0 <= i < |s| && s[i].id != u.id ==> r[i] == s[i]
  {
    seq(|s|, i requires 0 <= i < |s| => if s[i].id == u.id then u else s[i])
  }

  lemma ReplaceIdempotent<Id>(s: seq<Product<Id>>, u: Product<Id>)
    ensures ReplaceById(ReplaceById(s, u), u) == ReplaceById(s, u)
  {
  }

  /** A list without the id is written back unchanged. */
  lemma ReplaceAbsent<Id>(s: seq<Product<Id>>, u: Product<Id>)
    requires FindById(s, u.id).None?
    ensures ReplaceById(s, u) == s
  {
  }

  /** A later replacement of the same id overrides an earlier one. */
  lemma ReplaceOverrides<Id>(s: seq<Product<Id>>, u: Product<Id>, v: Product<Id>)
    requires u.id == v.id
    ensures ReplaceById(ReplaceById(s, u), v) == ReplaceById(s, v)
  {
  }

  /** After the rewrite, looking the id up gives the new record exactly
      when the list had the id. */
  lemma ReplaceThenFind<Id>(s: seq<Product<Id>>, u: Product<Id>)
    ensures FindById(ReplaceById(s, u), u.id) == if FindById(s, u.id).Some? then Some(u) else None
  {
    var r := ReplaceById(s, u);
    var k := IndexOfId(s, u.id);
    IndexOfIdIs(r, u.id, k);
  }

  predicate AllValid<Id>(s: seq<Product<Id>>)
  {
    forall i :: 0 <= i < |s| ==> VoteInvariant(s[i])
  }

  lemma ReplaceKeepsInvariant<Id>(s: seq<Product<Id>>, u: Product<Id>)
    requires AllValid(s) && VoteInvariant(u)
    ensures AllValid(ReplaceById(s, u))
  {
  }

  /** Two clicks leave the product as it was and the stored list as if
      the product had been written back once. */
  lemma TwoClicks<Id>(s: seq<Product<Id>>, p: Product<Id>)
    ensures Toggle(Toggle(p)) == p
    ensures ReplaceById(ReplaceById(s, Toggle(p)), Toggle(Toggle(p))) == ReplaceById(s, p)
  {
    ToggleTwice(p);
    ReplaceOverrides(s, Toggle(p), p);
  }

  // ---------------------------------------------------------------------
  // The category icon

  datatype Category = Category(name: string, icon: string)

  /** The globe shown for a category that is not in the list. */
  const Globe: string := "\U{1F310}"

  /** `getCategoryEmoji`: the icon of the first category with the name,
      or the globe. */
  function CategoryEmoji(cats: seq<Category>, name: string): (r: string)
    ensures (forall i :: 0 <= i < |cats| ==> cats[i].name != name) ==> r == Globe
    ensures forall i ::
              (0 <= i < |cats| && cats[i].name == name && forall j :: 0 <= j < i ==> cats[j].name != name)
              ==> r == cats[i].icon
  {
    if |cats| == 0 then Globe
    else if cats[0].name == name then cats[0].icon
    else CategoryEmoji(cats[1..], name)
  }

  // ---------------------------------------------------------------------
  // The page state

  /** The decoded `'products'` entry of browser storage; a missing entry
      decodes to the empty list. */
  class LocalStore<Id> {
    var products: seq<Product<Id>>

    constructor(init: seq<Product<Id>>)
      ensures products == init
    {
      products := init;
    }
  }

  class DetailView<Id(==)> {
    /** The product the page was opened with. */
    const initial: Product<Id>
    const store: LocalStore<Id>
    /** The product on display. */
    var product: Product<Id>

    /** The displayed product and all stored products keep the vote
        invariant. */
    predicate Valid()
      reads this, store
    {
      VoteInvariant(product) && AllValid(store.products)
    }

    constructor(p: Product<Id>, s: LocalStore<Id>)
      ensures initial == p && store == s && product == p
      ensures VoteInvariant(p) && AllValid(s.products) ==> Valid()
    {
      initial := p;
      store := s;
      product := p;
    }

    /** The effect run on load: show the first stored product with the
        initial product's id, if there is one. */
    method LoadStored()
      modifies this
      ensures product == match FindById(store.products, initial.id)
                         case Some(q) => q
                         case None => old(product)
      ensures old(Valid()) ==> Valid()
    {
      var found := FindById(store.products, initial.id);
      if found.Some? {
        product := found.value;
      }
    }

    /** `handleUpvote`: toggle the displayed product and write it over
        every stored entry with its id. */
    method HandleUpvote()
      modifies this, store
      ensures product == Toggle(old(product))
      ensures store.products == ReplaceById(old(store.products), product)
      ensures old(Valid()) ==> Valid()
    {
      product := Toggle(product);
      store.products := ReplaceById(store.products, product);
      if old(Valid()) {
        ToggleKeepsInvariant(old(product));
        ReplaceKeepsInvariant(old(store.products), product);
      }
    }
  }
}
