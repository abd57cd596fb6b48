/** The two blog forms of the admin pages, client/src/pages/admin/UpdateBlog.jsx
    and client/src/pages/admin/PostingBlog.jsx. Both keep a title, a picture
    and a list of tags, edit the tags in the same three ways, and send the post
    as multipart form data. */
module BlogForms {
  import opened Js
  import opened Lists

  /** The form state. `content` is the HTML of the editor; the posting form
      keeps it only in the editor and never writes this field. */
  datatype BlogForm = BlogForm(title: string, picture: Value, content: string, tags: seq<string>)

  const InitialUpdateForm := BlogForm("", Null, "", [])
  const InitialPostForm := BlogForm("", Str(""), "", [])

  /** addTagField: one empty tag at the end; nothing else changes. */
  function AddTagField(f: BlogForm): (f': BlogForm)
    ensures f'.tags == f.tags + [""]
    ensures f'.title == f.title && f'.picture == f.picture && f'.content == f.content
  {
    f.(tags := f.tags + [""])
  }

  /** handleTagChange: a copy of the tags gets one cell assigned. The index is
      that of a rendered input, so it is in range. */
  method HandleTagChange(f: BlogForm, index: nat, value: string) returns (f': BlogForm)
    requires index < |f.tags|
    ensures |f'.tags| == |f.tags| && f'.tags[index] == value
    ensures forall j :: 0 <= j < |f.tags| && j != index ==> f'.tags[j] == f.tags[j]
    ensures f'.title == f.title && f'.picture == f.picture && f'.content == f.content
  {
    var copy := new string[|f.tags|](k requires 0 <= k < |f.tags| => f.tags[k]);
    copy[index] := value;
    f' := f.(tags := copy[..]);
  }

  /** removeTagField: the tags with `index` spliced out. */
  function RemoveTag(f: BlogForm, index: nat): (f': BlogForm)
    ensures f'.tags == RemoveAt(f.tags, index)
    ensures f'.title == f.title && f'.picture == f.picture && f'.content == f.content
  {
    f.(tags := RemoveAt(f.tags, index))
  }

  /** removeTagField as the pages run it: a copy shortened by `splice`. */
  method RemoveTagField(f: BlogForm, index: nat) returns (f': BlogForm)
    ensures f' == RemoveTag(f, index)
  {
    var spliced := SpliceOut(f.tags, index);
    f' := f.(tags := spliced);
  }

  /** Adding a tag and removing the last index gives back the form. */
  lemma AddThenRemoveTag(f: BlogForm)
    ensures RemoveTag(AddTagField(f), |f.tags|) == f
  {
    AppendThenRemoveLast(f.tags, "");
  }

  /** handleEditorStateChange of the update form: the editor's HTML replaces
      the content and nothing else. */
  function EditorChanged(f: BlogForm, html: string): (f': BlogForm)
    ensures f'.content == html
    ensures f'.title == f.title && f'.picture == f.picture && f'.tags == f.tags
  {
    f.(content := html)
  }

  /** One `FormData.append(name, value)`. */
  datatype Part = Part(name: string, value: Value)

  /** The parts a submit appends, in order: title, content, picture, then one
      "tags" part per tag. */
  function Payload(title: string, content: string, picture: Value, tags: seq<string>): seq<Part>
  {
    [Part("title", Str(title)), Part("content", Str(content)), Part("picture", picture)]
    + seq(|tags|, i requires 0 <= i < |tags| => Part("tags", Str(tags[i])))
  }

  /** The values of the parts named "tags", in order: what a server reads back
      as the tag list. */
  function TagValues(parts: seq<Part>): seq<Value>
  {
    if parts == [] then []
    else (if parts[0].name == "tags" then [parts[0].value] else []) + TagValues(parts[1..])
  }

  lemma {:induction false} TagValuesOfTags(tags: seq<string>)
    ensures TagValues(seq(|tags|, i requires 0 <= i < |tags| => Part("tags", Str(tags[i])))) == Strs(tags)
  {
    var parts := seq(|tags|, i requires 0 <= i < |tags| => Part("tags", Str(tags[i])));
    if tags != [] {
      TagValuesOfTags(tags[1..]);
      assert parts[1..] == seq(|tags[1..]|, i requires 0 <= i < |tags[1..]| => Part("tags", Str(tags[1..][i])));
    }
  }

  /** The submit body hands back the tag list unchanged: the three fixed parts
      are not named "tags", and the tag parts keep the list order. */
  lemma PayloadCarriesTags(title: string, content: string, picture: Value, tags: seq<string>)
    ensures TagValues(Payload(title, content, picture, tags)) == Strs(tags)
  {
    var tagParts := seq(|tags|, i requires 0 <= i < |tags| => Part("tags", Str(tags[i])));
    var parts := Payload(title, content, picture, tags);
    TagValuesOfTags(tags);
    assert parts[1..][1..][1..] == tagParts;
    assert TagValues(parts) == TagValues(parts[1..]) == TagValues(parts[1..][1..]) == TagValues(parts[1..][1..][1..]);
  }

  /** The submit handler's `FormData` construction, with the forEach over the
      tags. */
  method BuildPayload(title: string, content: string, picture: Value, tags: seq<string>) returns (parts: seq<Part>)
    ensures parts == Payload(title, content, picture, tags)
    ensures |parts| == 3 + |tags|
  {
    parts := [Part("title", Str(title)), Part("content", Str(content)), Part("picture", picture)];
    var i := 0;
    while i < |tags|
      invariant i <= |tags|
      invariant |parts| == 3 + i
      invariant parts[..3] == [Part("title", Str(title)), Part("content", Str(content)), Part("picture", picture)]
      invariant forall j :: 0 <= j < i ==> parts[3 + j] == Part("tags", Str(tags[j]))
    {
      parts := parts + [Part("tags", Str(tags[i]))];
      i := i + 1;
    }
  }

  const AllBlogs := "/admin/all-blog"

  /** Submit: the request, then the navigation to the blog list only when it
      succeeds; a failure is only logged. */
  function SubmitEffects(verb: HttpMethod, url: string, ok: bool): (effects: seq<Effect>)
    ensures effects != [] && effects[0] == Send(verb, url)
    ensures Navigate(AllBlogs) in effects <==> ok
  {
    [Send(verb, url)] + (if ok then [Navigate(AllBlogs)] else [])
  }
}
