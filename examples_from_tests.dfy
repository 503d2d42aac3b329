/** The expectations of the repository's wrapper tests, stated about `PackSpec`. */
module TestExpectations {
  import opened Results
  import opened ArrayUtils
  import opened Json
  import opened Api
  import opened ResourceWrapper
  import PackProperties

  /** The settings `new JSONApi('/', { verbose, urlTemplates })` produces. */
  predicate ConfiguredAs(api: JSONApi, verbose: bool, urlTemplates: bool)
  {
    api.options == MergeOptions(Str("/"), Obj(map["verbose" := Bool(verbose), "urlTemplates" := Bool(urlTemplates)]))
  }

  function Author(): Value
  {
    Obj(map["id" := Str("j237h9"), "name" := Str("Great Artist")])
  }

  function PostFields(): Record
  {
    map["id" := Num(1), "title" := Str("The First Entry"), "author" := Author()]
  }

  function PackedPost(): Record
  {
    map["id" := Num(1), "title" := Str("The First Entry")]
  }

  /** Compact mode with templates switched off reads back as such. */
  lemma CompactSettings(api: JSONApi)
    requires ConfiguredAs(api, false, false)
    ensures api.Verbose() == Bool(false) && api.UrlTemplates() == Bool(false)
  {
  }

  /** The to-one `author` definition turns the post into its compact link and the author. */
  lemma AuthorStep(api: JSONApi, authors: Wrapper)
    requires ConfiguredAs(api, false, false)
    requires authors.resourceType == "authors"
    ensures Step(RefDef("author", authors, false), RecordState(PostFields(), None, None), api) ==
              Success(RecordState(PackedPost(), Some(map["author" := Str("j237h9")]),
                                  Some(map["authors" := [Author()]])))
  {
    CompactSettings(api);
    var fields := PostFields();
    assert fields - {"author"} == PackedPost();
    assert Ids(Author()) == Success(Str("j237h9"));
    assert BuildLinks(map[], fields, RefDef("author", authors, false), api) == Success(map["author" := Str("j237h9")]);
    assert Bucket(map[], "authors") + [Author()] == [Author()];
    assert BuildLinked(map[], "authors", Author()) == map["authors" := [Author()]];
  }

  /** Both definitions applied to the post: `author` is handled, the absent `comments` skipped. */
  lemma AuthorRecord(api: JSONApi, authors: Wrapper, comments: Wrapper)
    requires ConfiguredAs(api, false, false)
    requires authors.resourceType == "authors"
    ensures ApplyRefs([RefDef("author", authors, false), RefDef("comments", comments, true)], 0,
                      RecordState(PostFields(), None, None), api) ==
              Success(RecordState(PackedPost(), Some(map["author" := Str("j237h9")]),
                                  Some(map["authors" := [Author()]])))
  {
    var refs := [RefDef("author", authors, false), RefDef("comments", comments, true)];
    AuthorStep(api, authors);
    var st1 := RecordState(PackedPost(), Some(map["author" := Str("j237h9")]), Some(map["authors" := [Author()]]));
    assert Step(refs[1], st1, api) == Success(st1);
    assert ApplyRefs(refs, 2, st1, api) == Success(st1);
    assert ApplyRefs(refs, 1, st1, api) == Success(st1);
  }

  /** A post with a to-one author: the author's id becomes the link and the author moves to
      `linked.authors`; the absent to-many `comments` leaves no trace. */
  lemma ToOneAuthor(api: JSONApi, authors: Wrapper, comments: Wrapper)
    requires ConfiguredAs(api, false, false)
    requires authors.resourceType == "authors" && comments.resourceType == "comments"
    ensures PackSpec("posts", api, [RefDef("author", authors, false), RefDef("comments", comments, true)],
                     Obj(PostFields())) ==
              Success(map["posts" := Arr([Obj(PackedPost()["links" := Obj(map["author" := Str("j237h9")])])]),
                          "linked" := Obj(map["authors" := Arr([Author()])])])
  {
    var refs := [RefDef("author", authors, false), RefDef("comments", comments, true)];
    CompactSettings(api);
    AuthorPosts(api, authors, comments);
    assert Records(Obj(PostFields())) == [Obj(PostFields())];
    assert LinkedValue(map["authors" := [Author()]]) == Obj(map["authors" := Arr([Author()])]);
  }

  /** The outer loop over the single post. */
  lemma AuthorPosts(api: JSONApi, authors: Wrapper, comments: Wrapper)
    requires ConfiguredAs(api, false, false)
    requires authors.resourceType == "authors"
    ensures PackFrom([RefDef("author", authors, false), RefDef("comments", comments, true)],
                     [Obj(PostFields())], 0, [], None, api) ==
              Success(([Obj(PackedPost()["links" := Obj(map["author" := Str("j237h9")])])],
                       Some(map["authors" := [Author()]])))
  {
    var refs := [RefDef("author", authors, false), RefDef("comments", comments, true)];
    AuthorRecord(api, authors, comments);
    var links := map["author" := Str("j237h9")];
    var linked := map["authors" := [Author()]];
    var st1 := RecordState(PackedPost(), Some(links), Some(linked));
    var packed := Obj(PackedPost()["links" := Obj(links)]);
    assert [] + [Finish(st1)] == [packed];
    assert PackFrom(refs, [Obj(PostFields())], 1, [packed], Some(linked), api) == Success(([packed], Some(linked)));
  }

  function Comment(id: int, text: string): Value
  {
    Obj(map["id" := Num(id), "text" := Str(text)])
  }

  /** In verbose mode the links to two comments are `{id, type, href}` objects whose `href` is
      `'/comments/' + id`. */
  lemma VerboseCommentLinks(api: JSONApi, comments: Wrapper)
    requires ConfiguredAs(api, true, false)
    requires comments.resourceType == "comments"
    ensures LinkFor(RefDef("comments", comments, true),
                    Arr([Comment(1, "The first comment"), Comment(2, "bad comment")]), api) ==
              Arr([Obj(map["id" := Num(1), "type" := Str("comments"), "href" := Str("/comments/1")]),
                   Obj(map["id" := Num(2), "type" := Str("comments"), "href" := Str("/comments/2")])])
  {
    VerboseSettings(api);
    CommentLinks(api, comments);
  }

  lemma CommentLinks(api: JSONApi, comments: Wrapper)
    requires api.Verbose() == Bool(true) && api.BaseUrl() == Str("/")
    requires comments.resourceType == "comments"
    ensures LinkFor(RefDef("comments", comments, true),
                    Arr([Comment(1, "The first comment"), Comment(2, "bad comment")]), api) ==
              Arr([Obj(map["id" := Num(1), "type" := Str("comments"), "href" := Str("/comments/1")]),
                   Obj(map["id" := Num(2), "type" := Str("comments"), "href" := Str("/comments/2")])])
  {
    var d := RefDef("comments", comments, true);
    var value := Arr([Comment(1, "The first comment"), Comment(2, "bad comment")]);
    assert AllReadable(value);
    var r := LinkFor(d, value, api);
    assert r.items[0] == LinkObject(Num(1), "comments", Str("/"));
    assert r.items[1] == LinkObject(Num(2), "comments", Str("/"));
    HrefOf(1);
    HrefOf(2);
    assert DigitChar(1) == '1' && DigitChar(2) == '2';
    assert "/comments/" + ['1'] == "/comments/1" && "/comments/" + ['2'] == "/comments/2";
    assert r == Arr([r.items[0], r.items[1]]);
  }

  lemma VerboseSettings(api: JSONApi)
    requires ConfiguredAs(api, true, false)
    ensures api.Verbose() == Bool(true) && api.BaseUrl() == Str("/")
  {
  }

  lemma HrefOf(n: nat)
    requires n < 10
    ensures LinkObject(Num(n), "comments", Str("/")) ==
              Obj(map["id" := Num(n), "type" := Str("comments"), "href" := Str("/comments/" + [DigitChar(n)])])
  {
    assert ToJsString(Num(n)) == NatToString(n) == [DigitChar(n)];
    assert Href(Str("/"), "comments", Num(n)) == "/comments/" + [DigitChar(n)];
  }

  /** With URL templates on, a post wrapper with a `comments` definition publishes the template
      `posts.comments` pointing at `'/comments/{posts.comments}'`, whatever it packs. */
  lemma CommentTemplate(api: JSONApi, comments: Wrapper, data: Value)
    requires ConfiguredAs(api, false, true)
    requires comments.resourceType == "comments"
    requires Packable(data)
    requires PackSpec("posts", api, [RefDef("comments", comments, true)], data).Success?
    ensures var out := PackSpec("posts", api, [RefDef("comments", comments, true)], data).value;
            "links" in out &&
            out["links"] == Obj(map["posts.comments" := Obj(map["type" := Str("comments"),
                                                                 "href" := Str("/comments/{posts.comments}")])])
  {
    var refs := [RefDef("comments", comments, true)];
    TemplateSettings(api);
    PackProperties.LinksSection("posts", api, refs, data, data);
    CommentTemplates(comments);
  }

  lemma TemplateSettings(api: JSONApi)
    requires ConfiguredAs(api, false, true)
    ensures api.UrlTemplates() == Bool(true) && api.BaseUrl() == Str("/")
  {
  }

  /** The templates of the single `comments` definition under base URL '/'. */
  lemma CommentTemplates(comments: Wrapper)
    requires comments.resourceType == "comments"
    ensures LinkTemplates("posts", [RefDef("comments", comments, true)], Str("/")) ==
              Obj(map["posts.comments" := Obj(map["type" := Str("comments"),
                                                  "href" := Str("/comments/{posts.comments}")])])
  {
    var refs := [RefDef("comments", comments, true)];
    assert refs[..0] == [];
    assert TemplateKey("posts", refs[0]) == "posts.comments";
    assert "/" + "comments" + "/{" + "posts.comments" + "}" == "/comments/{posts.comments}";
    assert Template("posts", refs[0], Str("/")) ==
             Obj(map["type" := Str("comments"), "href" := Str("/comments/{posts.comments}")]);
    assert TemplatesOf("posts", refs[..0], Str("/")) == map[];
  }
}
