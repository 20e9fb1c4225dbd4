/**
 * The service layer of the HTTP client: each service function issues one
 * HTTP verb on one path relative to the client's base address.
 */
module ApiRoutes {

  datatype Verb = Get | Post | Put | Patch | Delete

  /** The resources that expose the full set of list/item operations. */
  datatype Resource = Projects | Categories | ProjectImages | Pages | Navigation | ContactSubmissions

  /** The six operations shared by those resources; `key` is an id, or a slug for pages. */
  datatype CrudOp =
    | GetAll
    | GetOne(key: string)
    | Create
    | Update(key: string)
    | PartialUpdate(key: string)
    | Remove(key: string)
  {
    predicate OnItem() { GetOne? || Update? || PartialUpdate? || Remove? }
  }

  /** One service function of the client. */
  datatype ServiceCall =
    | Crud(resource: Resource, op: CrudOp)
    | Login
    | VerifyToken
    | GetUsers
    | FeaturedProjects
    | CategoryProjects(id: string)
    | PublishedPage(slug: string)
    | SubmitContact
    | MarkAsRead(id: string)

  /** The verb, the path, and a `Content-Type` that overrides the client's default, if any. */
  datatype Endpoint = Endpoint(verb: Verb, path: string, contentType: string)

  const JsonType := "application/json"
  const MultipartType := "multipart/form-data"

  /** The path of each item operation, written out per resource as the service functions do. */
  function ItemPath(r: Resource, key: string): string {
    match r
    case Projects => "/projects/" + key + "/"
    case Categories => "/categories/" + key + "/"
    case ProjectImages => "/project-images/" + key + "/"
    case Pages => "/pages/" + key + "/"
    case Navigation => "/navigation/" + key + "/"
    case ContactSubmissions => "/admin/contact-submissions/" + key + "/"
  }

  /** The path of `getAll` and `create`. */
  function CollectionPath(r: Resource): string {
    match r
    case Projects => "/projects/"
    case Categories => "/categories/"
    case ProjectImages => "/project-images/"
    case Pages => "/pages/"
    case Navigation => "/navigation/"
    case ContactSubmissions => "/admin/contact-submissions/"
  }

  function CrudVerb(op: CrudOp): Verb {
    match op
    case GetAll => Get
    case GetOne(_) => Get
    case Create => Post
    case Update(_) => Put
    case PartialUpdate(_) => Patch
    case Remove(_) => Delete
  }

  function Route(c: ServiceCall): Endpoint {
    match c
    case Crud(r, op) =>
      var path := if op.OnItem() then ItemPath(r, op.key) else CollectionPath(r);
      var contentType := if r == ProjectImages && op == Create then MultipartType else JsonType;
      Endpoint(CrudVerb(op), path, contentType)
    case Login => Endpoint(Post, "/auth/token/", JsonType)
    case VerifyToken => Endpoint(Post, "/auth/token/verify/", JsonType)
    case GetUsers => Endpoint(Get, "/auth/users/", JsonType)
    case FeaturedProjects => Endpoint(Get, "/projects/featured/", JsonType)
    case CategoryProjects(id) => Endpoint(Get, "/categories/" + id + "/projects/", JsonType)
    case PublishedPage(slug) => Endpoint(Get, "/pages/" + slug + "/published/", JsonType)
    case SubmitContact => Endpoint(Post, "/contact/", JsonType)
    case MarkAsRead(id) => Endpoint(Post, "/admin/contact-submissions/" + id + "/mark_as_read/", JsonType)
  }

  predicate Slashed(p: string) {
    |p| >= 2 && p[0] == '/' && p[|p| - 1] == '/'
  }

  /** Every route is an absolute path with a trailing slash, whatever the id or slug. */
  lemma RoutesAreSlashed(c: ServiceCall)
    ensures Slashed(Route(c).path)
  {
    match c
    case Crud(r, op) =>
      assert Slashed(CollectionPath(r));
      if op.OnItem() {
        ItemPathExtends(r, op.key);
      }
    case CategoryProjects(id) =>
      assert Route(c).path == "/categories/" + id + "/projects/";
    case PublishedPage(slug) =>
      assert Route(c).path == "/pages/" + slug + "/published/";
    case MarkAsRead(id) =>
      assert Route(c).path == "/admin/contact-submissions/" + id + "/mark_as_read/";
    case _ =>
  }

  /** An item path is the collection path followed by the key and a slash. */
  lemma ItemRoutesExtendCollection(r: Resource, op: CrudOp)
    ensures op.OnItem() ==> Route(Crud(r, op)).path == Route(Crud(r, GetAll)).path + op.key + "/"
  {
    if op.OnItem() {
      ItemPathExtends(r, op.key);
    }
  }

  /** The sub-resource paths extend the item path of their resource. */
  lemma SubResourcesExtendItem(id: string)
    ensures Route(CategoryProjects(id)).path == Route(Crud(Categories, GetOne(id))).path + "projects/"
    ensures Route(PublishedPage(id)).path == Route(Crud(Pages, GetOne(id))).path + "published/"
    ensures Route(MarkAsRead(id)).path == Route(Crud(ContactSubmissions, GetOne(id))).path + "mark_as_read/"
  {
    assert Route(CategoryProjects(id)).path == Route(Crud(Categories, GetOne(id))).path + "projects/" by {
      assert Route(Crud(Categories, GetOne(id))).path == "/categories/" + id + "/";
    }
    assert Route(PublishedPage(id)).path == Route(Crud(Pages, GetOne(id))).path + "published/" by {
      assert Route(Crud(Pages, GetOne(id))).path == "/pages/" + id + "/";
    }
    assert Route(Crud(ContactSubmissions, GetOne(id))).path == "/admin/contact-submissions/" + id + "/";
  }

  /** The item path of a key is its collection path followed by the key and a slash. */
  lemma ItemPathExtends(r: Resource, key: string)
    ensures ItemPath(r, key) == CollectionPath(r) + key + "/"
  {
  }

  /**
   * The featured projects path extends the projects collection path, and is the
   * item path of the key "featured", so it is the path `getById("featured")` uses.
   */
  lemma FeaturedExtendsCollection()
    ensures Route(FeaturedProjects).path == Route(Crud(Projects, GetAll)).path + "featured/"
    ensures Route(FeaturedProjects).path == Route(Crud(Projects, GetOne("featured"))).path
  {
  }

  /** The key can be read back from an item path: distinct keys never share a path. */
  lemma ItemPathInjective(r: Resource, a: string, b: string)
    requires ItemPath(r, a) == ItemPath(r, b)
    ensures a == b
  {
    var n := |CollectionPath(r)|;
    ItemPathExtends(r, a);
    ItemPathExtends(r, b);
    assert a == ItemPath(r, a)[n .. |ItemPath(r, a)| - 1];
    assert b == ItemPath(r, b)[n .. |ItemPath(r, b)| - 1];
  }

  /** Only `projectImagesService.create` sends multipart form data; every other call keeps the JSON default. */
  lemma MultipartOnlyForImageUpload(c: ServiceCall)
    ensures Route(c).contentType == MultipartType <==> c == Crud(ProjectImages, Create)
  {
  }
}
