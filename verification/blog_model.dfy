/** The BlogPost document (models/blog.model.ts), reduced to the fields the blog actions touch. */
module BlogModel {
  import opened Wrappers
  import opened Documents

  /** A blog post; `content` is the editor's JSON document, kept here as its text. */
  datatype BlogPost = BlogPost(title: string, content: string)

  /** The fields of a parsed request body; a field the body does not carry is `None`. */
  datatype BlogFields = BlogFields(title: Option<string>, content: Option<string>)

  /**
    Building and validating a new blog post: the String `title` must be non-empty and
    the Mixed `content` must be present (any value, even an empty one, passes).
  */
  function Create(f: BlogFields): (r: Result<BlogPost, ValidationError>)
    ensures r.Success? <==> HasText(f.title) && f.content.Some?
    ensures r.Success? ==> r.value == BlogPost(f.title.value, f.content.value)
    ensures r.Failure? ==> ("content" in r.error.paths <==> f.content.None?)
  {
    var errors := Missing("title", HasText(f.title)) + Missing("content", f.content.Some?);
    if |errors| > 0 then Failure(ValidationError(errors))
    else Success(BlogPost(f.title.value, f.content.value))
  }

  /** `findByIdAndUpdate(id, fields)`: the fields the body carries replace the stored ones. */
  function Patch(b: BlogPost, f: BlogFields): (r: BlogPost)
    ensures r.title == f.title.GetOr(b.title) && r.content == f.content.GetOr(b.content)
  {
    BlogPost(f.title.GetOr(b.title), f.content.GetOr(b.content))
  }
}
