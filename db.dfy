// The catalog model classes the search command refers to. The database layer
// itself (rows, queries) is not part of this model: a model class is only a
// name here.

module Db {
  import opened Wrappers

  /** The `db.Base` subclasses named by the search command. */
  datatype Model =
    | User | NamespaceTags | Tag | Namespace | Artist | Circle | Status
    | Grouping | Language | Category | Collection | Gallery | Title | GalleryUrl

  /** `model.__name__`, the name ModelFilter passes to its include and exclude entries. */
  function Name(m: Model): string
  {
    match m
    case User => "User"
    case NamespaceTags => "NamespaceTags"
    case Tag => "Tag"
    case Namespace => "Namespace"
    case Artist => "Artist"
    case Circle => "Circle"
    case Status => "Status"
    case Grouping => "Grouping"
    case Language => "Language"
    case Category => "Category"
    case Collection => "Collection"
    case Gallery => "Gallery"
    case Title => "Title"
    case GalleryUrl => "GalleryUrl"
  }

  /** The model class with a given name (what `database_cmd.GetModel` looks up); None when no class has it. */
  function ModelNamed(name: string): (r: Option<Model>)
    ensures r.Some? ==> Name(r.value) == name
  {
    if name == "User" then Some(User)
    else if name == "NamespaceTags" then Some(NamespaceTags)
    else if name == "Tag" then Some(Tag)
    else if name == "Namespace" then Some(Namespace)
    else if name == "Artist" then Some(Artist)
    else if name == "Circle" then Some(Circle)
    else if name == "Status" then Some(Status)
    else if name == "Grouping" then Some(Grouping)
    else if name == "Language" then Some(Language)
    else if name == "Category" then Some(Category)
    else if name == "Collection" then Some(Collection)
    else if name == "Gallery" then Some(Gallery)
    else if name == "Title" then Some(Title)
    else if name == "GalleryUrl" then Some(GalleryUrl)
    else None
  }

  /** Looking a model up by its own name finds that model: names are distinct. */
  lemma NameRoundTrip(m: Model)
    ensures ModelNamed(Name(m)) == Some(m)
  {
    match m
    case User =>
    case NamespaceTags =>
    case Tag =>
    case Namespace =>
    case Artist =>
    case Circle =>
    case Status =>
    case Grouping =>
    case Language =>
    case Category =>
    case Collection =>
    case Gallery =>
    case Title =>
    case GalleryUrl =>
  }
}
