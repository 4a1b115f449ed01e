/** The post-collection pass of the blog (internal/entity/post.go): scan the
    posts directory, convert each markdown file, append a post per file and
    render its page, then hand the whole collection to the index page.

    File output is a trace of write events; the directory listing, the
    markdown conversion, file creation and template execution are
    collaborators passed in as functions. */
module Entity {
  import opened Results
  import opened GoStrings

  const MarkdownSuffix := ".md"
  const HtmlSuffix := ".html"
  const IndexFilename := "index.html"

  /** One entry of a directory listing, as `os.ReadDir` reports it. */
  datatype Entry = Entry(name: string, isDir: bool)

  /** One post: its title, its HTML body (trusted markup) and the name of its page. */
  datatype Post = Post(title: string, content: string, filename: string)

  /** The collection under construction, with the directories it reads and writes.
      The two templates live in the `Sink`; the logger is not modelled. */
  datatype Posts = Posts(posts: seq<Post>, inputPath: string, outputDir: string)

  /** What the pass reads: the directory listing and the markdown-to-HTML
      conversion of the file at a path, both of which may fail. */
  datatype Source = Source(
    readDir: string -> Result<seq<Entry>>,
    convert: string -> Result<string>)

  /** What the pass writes through: creating the file `name` in directory `dir`,
      and executing the post and index templates on their data. */
  datatype Sink = Sink(
    create: (string, string) -> Check,
    executePost: Post -> Check,
    executeIndex: seq<Post> -> Check)

  /** The data a page's template is executed on. */
  datatype Page = PostPage(post: Post) | IndexPage(posts: seq<Post>)

  datatype Status = Written | CreateFailed(msg: string) | ExecuteFailed(msg: string)

  /** One attempted page write: where, which data, and how it ended. */
  datatype Event = Write(dir: string, name: string, page: Page, status: Status)

  /** The step at which a pass panics. */
  datatype Stage = ReadingDir | Converting(name: string) | CreatingIndex | ExecutingIndex

  /** A finished pass with its collection, or the panic that ended it;
      either way, the page writes attempted before the end. */
  datatype Outcome =
    | Done(collection: Posts, trace: seq<Event>)
    | Aborted(trace: seq<Event>, stage: Stage, msg: string)

  /** The loop's filter: entries that are not directories and whose name ends
      in ".md", case-sensitively. */
  predicate Eligible(e: Entry)
  {
    !e.isDir && HasSuffix(e.name, MarkdownSuffix)
  }

  /** An entry is kept exactly when it is not a directory and its name is some
      title followed by ".md". */
  lemma EligibleMeaning(e: Entry)
    ensures Eligible(e) <==> !e.isDir && exists title :: title + MarkdownSuffix == e.name
  {
    HasSuffixMeaning(e.name, MarkdownSuffix);
  }

  /** A directory and a listing name glued with "/". This is the path `Set` reads
      a markdown file from (`fmt.Sprintf("%s/%s", dir, name)`, exactly), and the
      filename the earlier version gives a post (`filepath.Join(dir, name)`,
      which agrees for a clean directory and a name without a separator). */
  function JoinPath(dir: string, name: string): string
  {
    dir + "/" + name
  }

  /** A joined path splits back into the directory, one "/", and the file name. */
  lemma JoinPathSplits(inputPath: string, name: string)
    ensures |JoinPath(inputPath, name)| == |inputPath| + 1 + |name|
    ensures JoinPath(inputPath, name)[..|inputPath|] == inputPath
    ensures JoinPath(inputPath, name)[|inputPath|] == '/'
    ensures JoinPath(inputPath, name)[|inputPath| + 1..] == name
  {
  }

  /** Names of the eligible entries, in listing order. */
  function EligibleNames(entries: seq<Entry>): (names: seq<string>)
    ensures |names| <= |entries|
    ensures forall i :: 0 <= i < |names| ==> HasSuffix(names[i], MarkdownSuffix)
  {
    if |entries| == 0 then []
    else
      var last := entries[|entries| - 1];
      EligibleNames(entries[..|entries| - 1]) + (if Eligible(last) then [last.name] else [])
  }

  /** `idx` picks out exactly the eligible entries, in increasing order, and
      `names` are their names. */
  ghost predicate SelectsEligible(entries: seq<Entry>, names: seq<string>, idx: seq<nat>)
  {
    && |idx| == |names|
    && (forall i :: 0 <= i < |idx| ==>
          idx[i] < |entries| && Eligible(entries[idx[i]]) && entries[idx[i]].name == names[i])
    && (forall i, j :: 0 <= i < j < |idx| ==> idx[i] < idx[j])
    && (forall k :: 0 <= k < |entries| && Eligible(entries[k]) ==> k in idx)
  }

  /** Positions of the eligible entries. */
  ghost function EligibleIndices(entries: seq<Entry>): (idx: seq<nat>)
    ensures forall i :: 0 <= i < |idx| ==> idx[i] < |entries|
  {
    if |entries| == 0 then []
    else
      EligibleIndices(entries[..|entries| - 1])
      + (if Eligible(entries[|entries| - 1]) then [|entries| - 1] else [])
  }

  /** The filter keeps every eligible entry and nothing else, in listing order:
      a directory (even one called "x.md") or a name with another suffix never
      yields a post, and the number of posts is the number of eligible entries. */
  lemma {:induction false} EligibleSelection(entries: seq<Entry>)
    ensures SelectsEligible(entries, EligibleNames(entries), EligibleIndices(entries))
  {
    if |entries| > 0 {
      var init := entries[..|entries| - 1];
      EligibleSelection(init);
      var idx0 := EligibleIndices(init);
      forall k | 0 <= k < |entries| && Eligible(entries[k])
        ensures k in EligibleIndices(entries)
      {
        if k < |entries| - 1 {
          assert init[k] == entries[k];
        }
      }
    }
  }

  /** `post` is the post the loop builds for the markdown file `name`, whose
      conversion gave `converted`. */
  ghost predicate DerivedPost(post: Post, name: string, converted: Result<string>)
  {
    && converted.Ok?
    && post.content == converted.value
    && post.title + MarkdownSuffix == name
    && post.filename == post.title + HtmlSuffix
  }

  /** `ev` is the page write for the markdown file `name` of the collection `p`:
      `Create` of the post derived from it, into the output directory. */
  ghost predicate PageOfName(ev: Event, name: string, p: Posts, src: Source, sink: Sink)
  {
    && ev.page.PostPage?
    && DerivedPost(ev.page.post, name, src.convert(JoinPath(p.inputPath, name)))
    && ev == Create(ev.page.post, p.outputDir, ev.page.post.filename, sink)
  }

  /** `Post.Create`: creates `outputFilename` in `outputDir` and executes the post
      template on the post; the template is not run when creation fails. */
  function Create(post: Post, outputDir: string, outputFilename: string, sink: Sink): (ev: Event)
    ensures ev.dir == outputDir && ev.name == outputFilename && ev.page == PostPage(post)
    ensures ev.status.Written? <==>
      sink.create(outputDir, outputFilename).Pass? && sink.executePost(post).Pass?
    ensures ev.status.CreateFailed? <==> sink.create(outputDir, outputFilename).Fail?
  {
    WritePage(outputDir, outputFilename, PostPage(post),
              sink.create(outputDir, outputFilename), sink.executePost(post))
  }

  /** A page write: the file is created, then the template is executed on `page`. */
  function WritePage(dir: string, name: string, page: Page, created: Check, executed: Check): Event
  {
    match created
    case Fail(msg) => Write(dir, name, page, CreateFailed(msg))
    case Pass =>
      match executed
      case Pass => Write(dir, name, page, Written)
      case Fail(msg) => Write(dir, name, page, ExecuteFailed(msg))
  }

  /** One iteration of the loop of `Set`, on entry `e`, from the collection `q`
      and the writes `trace` left by the entries before it. A conversion error
      panics; the error of `Create` is dropped, so the post stays and the loop
      goes on. */
  function Step(q: Posts, trace: seq<Event>, e: Entry, src: Source, sink: Sink): (r: Outcome)
    ensures !Eligible(e) ==> r == Done(q, trace)
    ensures Eligible(e) && src.convert(JoinPath(q.inputPath, e.name)).Err? ==>
      r == Aborted(trace, Converting(e.name), src.convert(JoinPath(q.inputPath, e.name)).msg)
    ensures Eligible(e) && src.convert(JoinPath(q.inputPath, e.name)).Ok? ==>
      && r.Done?
      && r.collection.inputPath == q.inputPath && r.collection.outputDir == q.outputDir
      && |r.collection.posts| == |q.posts| + 1
      && r.collection.posts[..|q.posts|] == q.posts
      && DerivedPost(r.collection.posts[|q.posts|], e.name, src.convert(JoinPath(q.inputPath, e.name)))
      && r.trace == trace + [Create(r.collection.posts[|q.posts|], q.outputDir,
                                    r.collection.posts[|q.posts|].filename, sink)]
  {
    if !Eligible(e) then Done(q, trace)
    else
      var outputFilename := TrimSuffix(e.name, MarkdownSuffix) + HtmlSuffix;
      match src.convert(JoinPath(q.inputPath, e.name))
      case Err(msg) => Aborted(trace, Converting(e.name), msg)
      case Ok(content) =>
        var post := Post(TrimSuffix(e.name, MarkdownSuffix), content, outputFilename);
        Done(q.(posts := q.posts + [post]), trace + [Create(post, q.outputDir, outputFilename, sink)])
  }

  /** `q` is `p` with one post appended per name of `names`, in order, each
      derived from its name and its converted file; the directories are kept. */
  ghost predicate Collected(p: Posts, names: seq<string>, q: Posts, src: Source)
  {
    && q.inputPath == p.inputPath && q.outputDir == p.outputDir
    && |q.posts| == |p.posts| + |names|
    && q.posts[..|p.posts|] == p.posts
    && forall i :: 0 <= i < |names| ==>
         DerivedPost(q.posts[|p.posts| + i], names[i], src.convert(JoinPath(p.inputPath, names[i])))
  }

  /** `trace` is one `Create` per post that `q` adds to `p`, in collection order. */
  ghost predicate WritesAdded(p: Posts, q: Posts, trace: seq<Event>, sink: Sink)
  {
    && |trace| + |p.posts| == |q.posts|
    && forall i :: 0 <= i < |trace| ==>
         trace[i] == Create(q.posts[|p.posts| + i], p.outputDir, q.posts[|p.posts| + i].filename, sink)
  }

  /** The pass stopped at the eligible name after the last page written:
      converting that file failed with the reported message. */
  ghost predicate StoppedAt(p: Posts, names: seq<string>, trace: seq<Event>, stage: Stage, msg: string, src: Source)
  {
    && |trace| < |names|
    && stage == Converting(names[|trace|])
    && src.convert(JoinPath(p.inputPath, names[|trace|])) == Err(msg)
  }

  /** The loop of `Set` over a listing, from the collection `p`. Every write,
      also those before an abort, is the page of the eligible file at its place. */
  function Scan(p: Posts, entries: seq<Entry>, src: Source, sink: Sink): (r: Outcome)
    decreases |entries|
    ensures |r.trace| <= |EligibleNames(entries)|
    ensures forall i :: 0 <= i < |r.trace| ==>
      PageOfName(r.trace[i], EligibleNames(entries)[i], p, src, sink)
    ensures r.Done? ==> Collected(p, EligibleNames(entries), r.collection, src)
    ensures r.Done? ==> WritesAdded(p, r.collection, r.trace, sink)
    ensures r.Aborted? ==> StoppedAt(p, EligibleNames(entries), r.trace, r.stage, r.msg, src)
  {
    if |entries| == 0 then Done(p, [])
    else
      match Scan(p, entries[..|entries| - 1], src, sink)
      case Aborted(trace, stage, msg) => Aborted(trace, stage, msg)
      case Done(q, trace) => Step(q, trace, entries[|entries| - 1], src, sink)
  }

  /** `Posts.Set`: lists the input directory (a listing error panics) and runs
      the loop over it. Posts already in the collection stay in front. */
  function Set(p: Posts, src: Source, sink: Sink): (r: Outcome)
    ensures src.readDir(p.inputPath).Err? ==>
      r == Aborted([], ReadingDir, src.readDir(p.inputPath).msg)
    ensures r.Done? ==> src.readDir(p.inputPath).Ok?
    ensures r.Done? ==>
      && r.collection.inputPath == p.inputPath
      && r.collection.outputDir == p.outputDir
      && |r.collection.posts| == |p.posts| + |EligibleNames(src.readDir(p.inputPath).value)|
      && r.collection.posts[..|p.posts|] == p.posts
    ensures r.Done? ==> |r.trace| == |r.collection.posts| - |p.posts|
    ensures forall i :: 0 <= i < |r.trace| ==> r.trace[i].dir == p.outputDir
    ensures r.Done? ==> forall i :: 0 <= i < |EligibleNames(src.readDir(p.inputPath).value)| ==>
      DerivedPost(r.collection.posts[|p.posts| + i], EligibleNames(src.readDir(p.inputPath).value)[i],
                  src.convert(JoinPath(p.inputPath, EligibleNames(src.readDir(p.inputPath).value)[i])))
    ensures r.Done? ==> forall i :: 0 <= i < |r.trace| ==>
      r.trace[i] == Create(r.collection.posts[|p.posts| + i], p.outputDir,
                           r.collection.posts[|p.posts| + i].filename, sink)
    ensures src.readDir(p.inputPath).Ok? ==>
      |r.trace| <= |EligibleNames(src.readDir(p.inputPath).value)|
    ensures src.readDir(p.inputPath).Ok? ==> forall i :: 0 <= i < |r.trace| ==>
      PageOfName(r.trace[i], EligibleNames(src.readDir(p.inputPath).value)[i], p, src, sink)
  {
    match src.readDir(p.inputPath)
    case Err(msg) => Aborted([], ReadingDir, msg)
    case Ok(entries) => Scan(p, entries, src, sink)
  }

  /** The pass fails exactly when the conversion of some eligible file fails. */
  lemma SetFailsIffConversionFails(p: Posts, src: Source, sink: Sink)
    requires src.readDir(p.inputPath).Ok?
    ensures Set(p, src, sink).Aborted? <==>
      exists i :: 0 <= i < |EligibleNames(src.readDir(p.inputPath).value)| &&
        src.convert(JoinPath(p.inputPath, EligibleNames(src.readDir(p.inputPath).value)[i])).Err?
  {
    var names := EligibleNames(src.readDir(p.inputPath).value);
    var r := Set(p, src, sink);
    if r.Aborted? {
      var k := |r.trace|;
      assert src.convert(JoinPath(p.inputPath, names[k])).Err?;
    } else {
      forall i | 0 <= i < |names|
        ensures src.convert(JoinPath(p.inputPath, names[i])).Ok?
      {
        assert DerivedPost(r.collection.posts[|p.posts| + i], names[i],
                           src.convert(JoinPath(p.inputPath, names[i])));
      }
    }
  }

  /** What rendering does never changes the collection: two sinks that succeed
      or fail differently give the same posts, the same verdict, and writes of
      the same pages to the same files. */
  lemma {:induction false} RenderErrorIgnored(p: Posts, entries: seq<Entry>, src: Source, sink1: Sink, sink2: Sink)
    ensures Scan(p, entries, src, sink1).Done? == Scan(p, entries, src, sink2).Done?
    ensures Scan(p, entries, src, sink1).Done? ==>
      Scan(p, entries, src, sink1).collection == Scan(p, entries, src, sink2).collection
    ensures |Scan(p, entries, src, sink1).trace| == |Scan(p, entries, src, sink2).trace|
    ensures forall i :: 0 <= i < |Scan(p, entries, src, sink1).trace| ==>
      && Scan(p, entries, src, sink1).trace[i].name == Scan(p, entries, src, sink2).trace[i].name
      && Scan(p, entries, src, sink1).trace[i].page == Scan(p, entries, src, sink2).trace[i].page
  {
    if |entries| > 0 {
      RenderErrorIgnored(p, entries[..|entries| - 1], src, sink1, sink2);
    }
  }

  /** `Posts.BuildIndex`: creates "index.html" in the output directory and
      executes the index template on the whole collection; any error panics. */
  function BuildIndex(p: Posts, sink: Sink): (ev: Event)
    ensures ev.dir == p.outputDir && ev.name == IndexFilename
    ensures ev.page == IndexPage(p.posts)
    ensures ev.status.Written? <==>
      sink.create(p.outputDir, IndexFilename).Pass? && sink.executeIndex(p.posts).Pass?
    ensures ev.status.CreateFailed? <==> sink.create(p.outputDir, IndexFilename).Fail?
  {
    WritePage(p.outputDir, IndexFilename, IndexPage(p.posts),
              sink.create(p.outputDir, IndexFilename), sink.executeIndex(p.posts))
  }

  /** `Posts.GetAll`: the accumulated collection, unchanged. */
  function GetAll(p: Posts): (r: seq<Post>)
    ensures r == p.posts
  {
    p.posts
  }

  /** The index template and `GetAll` both see exactly the accumulated collection. */
  lemma IndexAndGetAllAgree(p: Posts, sink: Sink)
    ensures BuildIndex(p, sink).page == IndexPage(GetAll(p))
  {
  }

  /** The filter on sample names: the suffix test is case-sensitive, a
      directory is skipped whatever its name, and ".md" alone is a post
      with an empty title. */
  lemma EligibilityExamples()
    ensures !Eligible(Entry("a.MD", false))
    ensures !Eligible(Entry("x.md", true))
    ensures !Eligible(Entry("notes.txt", false))
    ensures Eligible(Entry(".md", false)) && TrimSuffix(".md", MarkdownSuffix) == ""
  {
  }

  /** A listing with a wrong suffix and a directory named like a post between
      two markdown files: only the two markdown files are kept, in order. */
  lemma SampleListingNames()
    ensures EligibleNames([Entry("hello.md", false), Entry("notes.txt", false),
                           Entry("drafts.md", true), Entry("world.md", false)])
         == ["hello.md", "world.md"]
  {
    var entries := [Entry("hello.md", false), Entry("notes.txt", false),
                    Entry("drafts.md", true), Entry("world.md", false)];
    SuffixOfAppend("hello", MarkdownSuffix);
    SuffixOfAppend("world", MarkdownSuffix);
    assert "hello" + MarkdownSuffix == "hello.md";
    assert "world" + MarkdownSuffix == "world.md";
    assert !HasSuffix("notes.txt", MarkdownSuffix);
    assert entries[..1][..0] == [];
    assert EligibleNames(entries[..1]) == ["hello.md"];
    assert entries[..2][..1] == entries[..1];
    assert EligibleNames(entries[..2]) == ["hello.md"];
    assert entries[..3][..2] == entries[..2];
    assert EligibleNames(entries[..3]) == ["hello.md"];
    assert entries[..4] == entries;
  }
}
