/** The product listing: its filter controls, the products last fetched
    from the store, and the fetch, upvote and add actions. The hosted
    store is a table passed in and handed back; whether the store reports
    an error is a parameter. */
module ProductOverview {
  import opened Wrappers
  import opened Products

  /** What the add-product form submits: the row without id, upvotes and
      creation time. */
  datatype Draft = Draft(name: string, description: string, category: string, image: string, link: string)

  /** The row `addProduct` inserts; the store picks the id and the
      creation time. */
  function NewRow<Id>(d: Draft, id: Id, createdAt: string): (r: Product<Id>)
    ensures r.upvotes == 0 && !r.upvoted && r.id == id && r.createdAt == createdAt
    ensures r.name == d.name && r.description == d.description && r.category == d.category
    ensures r.image == d.image && r.link == d.link
  {
    Product(id, d.name, d.description, d.category, d.image, d.link, 0, createdAt, false)
  }

  class Overview<Id(==)> {
    var products: seq<Product<Id>>
    var searchTerm: string
    var selectedCategory: string
    var minVotes: int
    var loading: bool

    function Current(): Criteria
      reads this
    {
      Criteria(searchTerm, selectedCategory, minVotes)
    }

    /** `filteredProducts`: what the listing shows. */
    function Shown(): seq<Product<Id>>
      reads this
    {
      Filtered(products, Current())
    }

    constructor()
      ensures products == [] && Current() == InitialCriteria && loading
    {
      products := [];
      searchTerm := "";
      selectedCategory := AllCategories;
      minVotes := 0;
      loading := true;
    }

    /** `fetchProducts`: builds the query one filter at a time and, unless
        the store reports an error, replaces the products with its rows. */
    method FetchProducts(table: seq<Product<Id>>, fetchFails: bool)
      modifies this
      ensures Current() == old(Current())
      ensures products == if fetchFails then old(products) else RunQuery(table, ServerQuery(Current()))
      ensures !loading
    {
      loading := true;
      var query := NoCondition;
      if searchTerm != "" {
        query := query.(nameLike := Some(searchTerm));
      }
      if selectedCategory != AllCategories {
        query := query.(category := Some(selectedCategory));
      }
      if minVotes > 0 {
        query := query.(minUpvotes := Some(minVotes));
      }
      if !fetchFails {
        products := RunQuery(table, query);
      }
      loading := false;
    }

    /** A control changes the criteria, and the effect fetches again. */
    method ChangeCriteria(c: Criteria, table: seq<Product<Id>>, fetchFails: bool)
      modifies this
      ensures Current() == c
      ensures products == if fetchFails then old(products) else RunQuery(table, ServerQuery(c))
      ensures !loading
    {
      searchTerm := c.searchTerm;
      selectedCategory := c.selectedCategory;
      minVotes := c.minVotes;
      FetchProducts(table, fetchFails);
    }

    /** `handleUpvote`: the new count is the first listed product with the
        id plus one. Without such a product `find` gives `undefined`, reading
        its `upvotes` throws a TypeError, and nothing happens. The store sets the count on every row with the
        id; it reports an error when told to or when no row has the id, and
        otherwise the listing fetches again. */
    method HandleUpvote(id: Id, table: seq<Product<Id>>, updateFails: bool, fetchFails: bool)
      returns (table': seq<Product<Id>>)
      modifies this
      ensures Current() == old(Current())
      ensures FindById(old(products), id).None? || updateFails ==>
                table' == table && products == old(products) && loading == old(loading)
      ensures FindById(old(products), id).Some? && !updateFails ==>
                table' == SetUpvotes(table, id, FindById(old(products), id).value.upvotes + 1)
      ensures FindById(old(products), id).Some? && !updateFails && FindById(table, id).None? ==>
                products == old(products) && loading == old(loading)
      ensures FindById(old(products), id).Some? && !updateFails && FindById(table, id).Some? ==>
                products == (if fetchFails then old(products) else RunQuery(table', ServerQuery(Current()))) && !loading
    {
      var listed := FindById(products, id);
      if listed.None? || updateFails {
        return table;
      }
      table' := SetUpvotes(table, id, listed.value.upvotes + 1);
      if FindById(table, id).Some? {
        FetchProducts(table', fetchFails);
      }
    }

    /** `addProduct`: the store appends the draft with zero upvotes, and
        on success the listing fetches again. */
    method AddProduct(d: Draft, newId: Id, createdAt: string, table: seq<Product<Id>>, insertFails: bool, fetchFails: bool)
      returns (table': seq<Product<Id>>)
      modifies this
      ensures Current() == old(Current())
      ensures insertFails ==> table' == table && products == old(products) && loading == old(loading)
      ensures !insertFails ==> table' == table + [NewRow(d, newId, createdAt)]
      ensures !insertFails ==>
                products == (if fetchFails then old(products) else RunQuery(table', ServerQuery(Current()))) && !loading
    {
      if insertFails {
        return table;
      }
      table' := table + [NewRow(d, newId, createdAt)];
      FetchProducts(table', fetchFails);
    }
  }

  // ---------------------------------------------------------------------
  // Properties of the listing's actions

  /** After a successful fetch the listing shows every fetched row with
      non-negative upvotes, highest first. */
  lemma FetchThenShowAll<Id>(table: seq<Product<Id>>, c: Criteria)
    requires forall i :: 0 <= i < |table| ==> table[i].upvotes >= 0
    ensures Filtered(RunQuery(table, ServerQuery(c)), c) == RunQuery(table, ServerQuery(c))
    ensures SortedByVotes(Filtered(RunQuery(table, ServerQuery(c)), c))
  {
    FetchedAllShown(table, c);
    RunQueryCorrect(table, ServerQuery(c));
  }

  /** A product the store accepts is listed after the next successful
      fetch exactly when the current criteria admit it. */
  lemma AddedRowListed<Id>(table: seq<Product<Id>>, d: Draft, newId: Id, createdAt: string, c: Criteria)
    ensures NewRow(d, newId, createdAt) in RunQuery(table + [NewRow(d, newId, createdAt)], ServerQuery(c))
        <==> Admits(NewRow(d, newId, createdAt), ServerQuery(c))
  {
    var row := NewRow(d, newId, createdAt);
    RunQueryCorrect(table + [row], ServerQuery(c));
    assert (table + [row])[|table|] == row;
  }
}
