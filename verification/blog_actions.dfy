/**
  The blog server actions (lib/actions/blog.action.ts): creating a blog post for a
  product, updating, deleting and fetching posts, and fetching a product with its posts.
  Request bodies arrive as JSON text; every action turns whatever it throws into one
  fixed message per action. An id that is not a well-formed ObjectId makes `findById`
  throw, which these actions treat exactly like an id that names no document, so ids
  are modelled as plain identifiers.
*/
module BlogActions {
  import opened Wrappers
  import opened Documents
  import opened Sequences
  import opened ProductModel
  import opened BlogModel
  import opened Database

  const CreateFailed := "Failed to create blog"
  const UpdateFailed := "Failed to update blog"
  const DeleteFailed := "Failed to delete blog"
  const FetchProductBlogsFailed := "Failed to fetch product blogs"
  const FetchBlogFailed := "Failed to fetch blog"

  /** The product's blog list names `id`. */
  predicate ListsBlog(id: Id, p: Doc<Product>)
  {
    id in p.data.blogs
  }

  function ListsBlogOf(id: Id): Doc<Product> -> bool
  {
    p => ListsBlog(id, p)
  }

  /** `product.blogs.push(bid)` on the product at position `i`, saved. */
  function PushBlog(products: seq<Doc<Product>>, i: nat, bid: Id): (r: seq<Doc<Product>>)
    requires i < |products|
    ensures SameIds(products, r)
    ensures r[i].data.blogs == products[i].data.blogs + [bid]
  {
    products[i := products[i].(data := products[i].data.(blogs := products[i].data.blogs + [bid]))]
  }

  /** `updateMany({ blogs: bid }, { $pull: { blogs: bid } })`: every product drops `bid`. */
  function PullBlogEverywhere(products: seq<Doc<Product>>, bid: Id): (r: seq<Doc<Product>>)
    ensures SameIds(products, r)
    ensures forall j :: 0 <= j < |r| ==> bid !in r[j].data.blogs
    ensures forall j :: 0 <= j < |r| ==> r[j].data == products[j].data.(blogs := r[j].data.blogs)
    ensures forall j :: 0 <= j < |r| ==> r[j].data.blogs == Without(products[j].data.blogs, bid)
    decreases |products|
  {
    if |products| == 0 then []
    else
      var p := products[0];
      [p.(data := p.data.(blogs := Without(p.data.blogs, bid)))] + PullBlogEverywhere(products[1..], bid)
  }

  /**
    `createBlogForProduct`: parse the body, validate and save the post under a fresh id,
    then push that id onto the product's blog list. When the product does not exist the
    action fails, but the post it has already saved stays stored.
  */
  function CreateBlogForProduct(db: Db, productId: Id, body: Payload<BlogFields>): (r: Outcome<()>)
    ensures r.result.Success? <==>
      body.Parsed? && BlogModel.Create(body.value).Success? && Holds(db.products, productId)
    ensures r.result.Failure? ==> r.result.error == CreateFailed
    ensures body.Unparseable? || BlogModel.Create(body.value).Failure? ==> r.db == db
    ensures body.Parsed? && BlogModel.Create(body.value).Success? ==>
      && r.db.blogs == db.blogs + [Doc(db.nextId, BlogPost(body.value.title.value, body.value.content.value))]
      && r.db.nextId == db.nextId + 1
      && r.db.stores == db.stores && r.db.feedbacks == db.feedbacks && r.db.orders == db.orders
    ensures r.result.Failure? ==> r.db.products == db.products
    ensures r.result.Success? ==>
      var i := IndexOf(db.products, productId).value;
      && SameExcept(db.products, r.db.products, i)
      && r.db.products[i].data == db.products[i].data.(blogs := db.products[i].data.blogs + [db.nextId])
  {
    match body
    case Unparseable => Outcome(db, Failure(CreateFailed))
    case Parsed(fields) =>
      match BlogModel.Create(fields)
      case Failure(_) => Outcome(db, Failure(CreateFailed))
      case Success(post) =>
        var saved := db.(blogs := db.blogs + [Doc(db.nextId, post)], nextId := db.nextId + 1);
        match IndexOf(db.products, productId)
        case None => Outcome(saved, Failure(CreateFailed))
        case Some(i) => Outcome(saved.(products := PushBlog(db.products, i, db.nextId)), Success(()))
  }

  /**
    `updateBlogById`: parse the body and overwrite the fields it carries on the post with
    this id. No validators run, so an empty title is stored as given.
  */
  function UpdateBlogById(db: Db, blogId: Id, body: Payload<BlogFields>): (r: Outcome<()>)
    ensures r.result.Success? <==> body.Parsed? && Holds(db.blogs, blogId)
    ensures r.result.Failure? ==> r.db == db && r.result.error == UpdateFailed
    ensures r.result.Success? ==>
      var k := IndexOf(db.blogs, blogId).value;
      && r.db == db.(blogs := r.db.blogs)
      && SameExcept(db.blogs, r.db.blogs, k)
      && r.db.blogs[k].id == blogId
      && r.db.blogs[k].data.title == body.value.title.GetOr(db.blogs[k].data.title)
      && r.db.blogs[k].data.content == body.value.content.GetOr(db.blogs[k].data.content)
  {
    match body
    case Unparseable => Outcome(db, Failure(UpdateFailed))
    case Parsed(fields) =>
      match IndexOf(db.blogs, blogId)
      case None => Outcome(db, Failure(UpdateFailed))
      case Some(k) =>
        Outcome(db.(blogs := db.blogs[k := Doc(blogId, Patch(db.blogs[k].data, fields))]), Success(()))
  }

  /**
    `deleteBlogById`: delete the post, then pull its id from every product that lists it.
    A post that does not exist is an error and nothing changes.
  */
  function DeleteBlogById(db: Db, blogId: Id): (r: Outcome<()>)
    ensures r.result.Success? <==> Holds(db.blogs, blogId)
    ensures r.result.Failure? ==> r.db == db && r.result.error == DeleteFailed
    ensures r.result.Success? ==>
      && |r.db.blogs| == |db.blogs| - 1
      && r.db.blogs == RemoveAt(db.blogs, IndexOf(db.blogs, blogId).value)
      && r.db.stores == db.stores && r.db.feedbacks == db.feedbacks && r.db.orders == db.orders
      && r.db.nextId == db.nextId
      && SameIds(db.products, r.db.products)
      && Count(r.db.products, ListsBlogOf(blogId)) == 0
      && (forall j :: 0 <= j < |db.products| ==>
            r.db.products[j].data == db.products[j].data.(blogs := Without(db.products[j].data.blogs, blogId)))
  {
    match IndexOf(db.blogs, blogId)
    case None => Outcome(db, Failure(DeleteFailed))
    case Some(k) =>
      var products := PullBlogEverywhere(db.products, blogId);
      assert Positions(products, ListsBlogOf(blogId)) == {};
      Outcome(db.(blogs := RemoveAt(db.blogs, k), products := products), Success(()))
  }

  /**
    `populate("blogs")`: each listed id replaced by the post it names, in list order;
    ids that name no post are skipped.
  */
  function Populate(ids: seq<Id>, blogs: seq<Doc<BlogPost>>): (r: seq<Doc<BlogPost>>)
    ensures |r| <= |ids|
    ensures forall j :: 0 <= j < |r| ==> r[j] in blogs && r[j].id in ids
    ensures (forall j :: 0 <= j < |ids| ==> Holds(blogs, ids[j])) ==>
      |r| == |ids| && forall j :: 0 <= j < |r| ==> r[j].id == ids[j]
    decreases |ids|
  {
    if |ids| == 0 then []
    else
      var n := |ids| - 1;
      var rest := Populate(ids[..n], blogs);
      match FindById(blogs, ids[n])
      case None => rest
      case Some(b) => rest + [b]
  }

  /** A product together with the posts its blog list names. */
  datatype ProductWithBlogs = ProductWithBlogs(product: Doc<Product>, blogs: seq<Doc<BlogPost>>)

  /** `fetchProductBlogsById`: the product with this id and its populated blog list. */
  function FetchProductBlogsById(db: Db, productId: Id): (r: Result<ProductWithBlogs, string>)
    ensures r.Success? <==> Holds(db.products, productId)
    ensures r.Failure? ==> r.error == FetchProductBlogsFailed
    ensures r.Success? ==>
      && r.value.product == FindById(db.products, productId).value
      && r.value.blogs == Populate(r.value.product.data.blogs, db.blogs)
      && |r.value.blogs| <= |r.value.product.data.blogs|
      && (forall j :: 0 <= j < |r.value.blogs| ==> r.value.blogs[j] in db.blogs)
  {
    match FindById(db.products, productId)
    case None => Failure(FetchProductBlogsFailed)
    case Some(p) => Success(ProductWithBlogs(p, Populate(p.data.blogs, db.blogs)))
  }

  /** `fetchBlogById`: the post with this id, or the fetch error when there is none. */
  function FetchBlogById(db: Db, blogId: Id): (r: Result<Doc<BlogPost>, string>)
    ensures r.Success? <==> Holds(db.blogs, blogId)
    ensures r.Success? ==> r.value.id == blogId && r.value in db.blogs
    ensures r.Failure? ==> r.error == FetchBlogFailed
  {
    match FindById(db.blogs, blogId)
    case None => Failure(FetchBlogFailed)
    case Some(b) => Success(b)
  }

  // ---------------------------------------------------------------------------
  // Properties across actions
  // ---------------------------------------------------------------------------

  /** Creating a post keeps the store well formed, whether or not the product exists. */
  lemma CreateBlogPreservesWf(db: Db, productId: Id, body: Payload<BlogFields>)
    requires Wf(db)
    ensures Wf(CreateBlogForProduct(db, productId, body).db)
  {
    var r := CreateBlogForProduct(db, productId, body);
    if r.db != db {
      InsertWellFormed(db.blogs, db.nextId, r.db.blogs[|db.blogs|].data);
      assert r.db.blogs == db.blogs + [Doc(db.nextId, r.db.blogs[|db.blogs|].data)];
      SameIdsWellFormed(db.products, r.db.products, db.nextId, db.nextId + 1);
      SameIdsWellFormed(db.stores, db.stores, db.nextId, db.nextId + 1);
      SameIdsWellFormed(db.feedbacks, db.feedbacks, db.nextId, db.nextId + 1);
      SameIdsWellFormed(db.orders, db.orders, db.nextId, db.nextId + 1);
    }
  }

  /** A post saved for a product that does not exist is stored but listed by no product. */
  lemma CreateForMissingProductOrphansPost(db: Db, productId: Id, body: Payload<BlogFields>)
    requires Wf(db)
    requires body.Parsed? && BlogModel.Create(body.value).Success? && !Holds(db.products, productId)
    ensures var r := CreateBlogForProduct(db, productId, body);
      && r.result.Failure?
      && Holds(r.db.blogs, db.nextId)
      && Count(r.db.products, ListsBlogOf(db.nextId)) == 0
  {
    var r := CreateBlogForProduct(db, productId, body);
    assert r.db.blogs[|db.blogs|].id == db.nextId;
    assert Positions(r.db.products, ListsBlogOf(db.nextId)) == {};
  }

  /** Deleting a post keeps the store well formed. */
  lemma DeleteBlogPreservesWf(db: Db, blogId: Id)
    requires Wf(db)
    ensures Wf(DeleteBlogById(db, blogId).db)
  {
    var r := DeleteBlogById(db, blogId);
    if r.result.Success? {
      var k := IndexOf(db.blogs, blogId).value;
      RemoveWellFormed(db.blogs, k, db.nextId);
      SameIdsWellFormed(db.products, r.db.products, db.nextId, db.nextId);
      forall i, x | 0 <= i < |r.db.products| && x in r.db.products[i].data.blogs
        ensures x < db.nextId
      {
        var before := db.products[i].data.blogs;
        assert r.db.products[i].data.blogs == Without(before, blogId) by {
          PullBlogEverywhereAt(db.products, blogId, i);
        }
        WithoutSubset<Id>(before, blogId, x);
      }
    }
  }

  /** What `PullBlogEverywhere` does to one product's list. */
  lemma {:induction false} PullBlogEverywhereAt(products: seq<Doc<Product>>, bid: Id, j: nat)
    requires j < |products|
    ensures PullBlogEverywhere(products, bid)[j].data.blogs == Without(products[j].data.blogs, bid)
    decreases |products|
  {
    if j > 0 {
      PullBlogEverywhereAt(products[1..], bid, j - 1);
    }
  }

  /** A successful update keeps the store well formed: no id changes. */
  lemma UpdateBlogPreservesWf(db: Db, blogId: Id, body: Payload<BlogFields>)
    requires Wf(db)
    ensures Wf(UpdateBlogById(db, blogId, body).db)
  {
    var r := UpdateBlogById(db, blogId, body);
    SameIdsWellFormed(db.blogs, r.db.blogs, db.nextId, db.nextId);
  }

  /** After a delete, fetching the id fails: the only post with it is gone. */
  lemma DeletedBlogIsGone(db: Db, blogId: Id)
    requires UniqueIds(db.blogs)
    ensures FetchBlogById(DeleteBlogById(db, blogId).db, blogId) == Failure(FetchBlogFailed)
  {
    match IndexOf(db.blogs, blogId)
    case None =>
    case Some(k) => RemoveUnique(db.blogs, k);
  }

  /** After an update, fetching the post gives the stored post with the body's fields laid over it. */
  lemma FetchAfterUpdate(db: Db, blogId: Id, fields: BlogFields)
    requires Holds(db.blogs, blogId)
    ensures var old_ := FindById(db.blogs, blogId).value.data;
      FetchBlogById(UpdateBlogById(db, blogId, Parsed(fields)).db, blogId) == Success(Doc(blogId, Patch(old_, fields)))
  {
    var r := UpdateBlogById(db, blogId, Parsed(fields));
    SameIdsIndexOf(db.blogs, r.db.blogs, blogId);
  }

  /** Populating a list with one more id adds the post it names, if any, at the end. */
  lemma PopulateSnoc(ids: seq<Id>, x: Id, blogs: seq<Doc<BlogPost>>)
    ensures Populate(ids + [x], blogs) ==
      Populate(ids, blogs) + (match FindById(blogs, x) case None => [] case Some(b) => [b])
  {
    assert (ids + [x])[..|ids|] == ids;
  }

  /** Once a post is created for a product, fetching that product shows the post last. */
  lemma CreatedPostIsFetchedLast(db: Db, productId: Id, body: Payload<BlogFields>)
    requires Wf(db)
    requires CreateBlogForProduct(db, productId, body).result.Success?
    ensures var c := CreateBlogForProduct(db, productId, body);
      var f := FetchProductBlogsById(c.db, productId);
      && f.Success?
      && |f.value.blogs| > 0
      && f.value.blogs[|f.value.blogs| - 1] == c.db.blogs[|c.db.blogs| - 1]
      && f.value.blogs[|f.value.blogs| - 1].id == db.nextId
  {
    var c := CreateBlogForProduct(db, productId, body);
    var i := IndexOf(db.products, productId).value;
    CreateBlogPreservesWf(db, productId, body);
    UniqueIndex(c.db.products, i);
    UniqueIndex(c.db.blogs, |db.blogs|);
    PopulateSnoc(db.products[i].data.blogs, db.nextId, c.db.blogs);
  }

  /**
    Deleting the post just created undoes the creation: the post is gone, the product's
    list is as before, and only the generator has moved on.
  */
  lemma DeleteUndoesCreate(db: Db, productId: Id, body: Payload<BlogFields>)
    requires Wf(db)
    requires CreateBlogForProduct(db, productId, body).result.Success?
    ensures DeleteBlogById(CreateBlogForProduct(db, productId, body).db, db.nextId) ==
      Outcome(db.(nextId := db.nextId + 1), Success(()))
  {
    var c := CreateBlogForProduct(db, productId, body);
    var bid := db.nextId;
    var i := IndexOf(db.products, productId).value;
    CreateBlogPreservesWf(db, productId, body);
    UniqueIndex(c.db.blogs, |db.blogs|);
    assert RemoveAt(c.db.blogs, |db.blogs|) == db.blogs;
    var pulled := PullBlogEverywhere(c.db.products, bid);
    forall j | 0 <= j < |db.products|
      ensures pulled[j] == db.products[j]
    {
      PullBlogEverywhereAt(c.db.products, bid, j);
      var before := db.products[j].data.blogs;
      assert bid !in before;
      WithoutAbsent(before, bid);
      if j == i {
        WithoutAppend(before, [bid], bid);
        assert Without([bid], bid) == [];
        assert c.db.products[j].data.blogs == before + [bid];
      } else {
        assert c.db.products[j] == db.products[j];
      }
      assert pulled[j].data.blogs == before;
      assert pulled[j].data == c.db.products[j].data.(blogs := before);
    }
    assert pulled == db.products;
  }
}
