/** The earlier standalone version of the program (main.go at the repository root): the
    same scan of the fixed "posts" directory, but a post's `filename` is the
    path of its markdown source, nothing is converted or rendered, and the
    filenames are printed one per line. */
module Early {
  import opened Results
  import opened GoStrings
  import opened Entity

  const PostsDir := "posts"

  /** `post` is the post this version builds for the markdown file `name`. */
  ghost predicate EarlyDerived(post: Post, name: string)
  {
    && post.title + MarkdownSuffix == name
    && post.filename == JoinPath(PostsDir, name)
    && post.content == ""
  }

  datatype EarlyOutcome = Printed(posts: seq<Post>, lines: seq<string>) | Panicked(msg: string)

  /** The first loop of `main`: one post per eligible entry, in listing order. */
  method Collect(entries: seq<Entry>) returns (posts: seq<Post>)
    ensures |posts| == |EligibleNames(entries)|
    ensures forall i :: 0 <= i < |posts| ==> EarlyDerived(posts[i], EligibleNames(entries)[i])
  {
    posts := [];
    var i := 0;
    while i < |entries|
      invariant 0 <= i <= |entries|
      invariant |posts| == |EligibleNames(entries[..i])|
      invariant forall k :: 0 <= k < |posts| ==> EarlyDerived(posts[k], EligibleNames(entries[..i])[k])
    {
      var f := entries[i];
      assert entries[..i + 1][..i] == entries[..i];
      if !f.isDir && HasSuffix(f.name, MarkdownSuffix) {
        var post := Post(TrimSuffix(f.name, MarkdownSuffix), "", JoinPath(PostsDir, f.name));
        posts := posts + [post];
      }
      i := i + 1;
    }
    assert entries[..|entries|] == entries;
  }

  /** The second loop of `main`: one printed line per post, its filename. */
  method PrintAll(posts: seq<Post>) returns (lines: seq<string>)
    ensures |lines| == |posts|
    ensures forall i :: 0 <= i < |posts| ==> lines[i] == posts[i].filename
  {
    lines := [];
    var i := 0;
    while i < |posts|
      invariant 0 <= i <= |posts|
      invariant |lines| == i
      invariant forall k :: 0 <= k < i ==> lines[k] == posts[k].filename
    {
      lines := lines + [posts[i].filename];
      i := i + 1;
    }
  }

  /** `main`: a listing error panics; otherwise the printed lines are the
      source paths of the eligible files, in listing order. */
  method EarlyMain(readDir: string -> Result<seq<Entry>>) returns (r: EarlyOutcome)
    ensures readDir(PostsDir).Err? ==> r == Panicked(readDir(PostsDir).msg)
    ensures readDir(PostsDir).Ok? ==> r.Printed?
    ensures r.Printed? ==>
      && readDir(PostsDir).Ok?
      && |r.posts| == |EligibleNames(readDir(PostsDir).value)|
      && |r.lines| == |r.posts|
    ensures r.Printed? ==> forall i :: 0 <= i < |r.posts| ==>
      && EarlyDerived(r.posts[i], EligibleNames(readDir(PostsDir).value)[i])
      && r.lines[i] == JoinPath(PostsDir, EligibleNames(readDir(PostsDir).value)[i])
  {
    match readDir(PostsDir)
    case Err(msg) =>
      r := Panicked(msg);
    case Ok(files) =>
      var posts := Collect(files);
      var lines := PrintAll(posts);
      r := Printed(posts, lines);
  }

  /** Both versions give the same titles to the same files; only the filename
      rule differs: the source path "posts/<title>.md" here, the page name
      "<title>.html" in `Set`. */
  lemma SameTitlesAsSet(p: Posts, entries: seq<Entry>, src: Source, sink: Sink, early: seq<Post>)
    requires Scan(p, entries, src, sink).Done?
    requires |early| == |EligibleNames(entries)|
    requires forall i :: 0 <= i < |early| ==> EarlyDerived(early[i], EligibleNames(entries)[i])
    ensures |Scan(p, entries, src, sink).collection.posts| == |p.posts| + |early|
    ensures forall i :: 0 <= i < |early| ==>
      && early[i].title == Scan(p, entries, src, sink).collection.posts[|p.posts| + i].title
      && early[i].filename == JoinPath(PostsDir, early[i].title + MarkdownSuffix)
      && Scan(p, entries, src, sink).collection.posts[|p.posts| + i].filename == early[i].title + HtmlSuffix
  {
  }
}
