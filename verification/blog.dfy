/** The driver (cmd/blog/main.go): resolve the directories, make sure the
    output directory exists, run the collection pass, and only after it has
    returned write the index page from the finished collection. */
module Blog {
  import opened Results
  import opened GoStrings
  import Config
  import opened Entity

  datatype Failure = OutputDirNotCreated(msg: string) | PassFailed(stage: Stage, msg: string)

  /** A whole build: the final collection and every page write, or the panic
      that ended it and the writes attempted before. */
  datatype RunOutcome =
    | Completed(posts: seq<Post>, trace: seq<Event>)
    | Failed(trace: seq<Event>, failure: Failure)

  /** `init` then `main`. `mkdirAll` answers whether `os.MkdirAll` succeeds on a directory. */
  function Run(getenv: string -> string, mkdirAll: string -> Check, src: Source, sink: Sink): (r: RunOutcome)
    ensures mkdirAll(Config.InitilizeConstants(getenv).outputDir).Fail? ==> r.Failed? && r.trace == []
    ensures forall i :: 0 <= i < |r.trace| ==>
      r.trace[i].dir == Config.InitilizeConstants(getenv).outputDir
    ensures r.Completed? ==>
      && src.readDir(Config.InitilizeConstants(getenv).postsDir).Ok?
      && |r.posts| == |EligibleNames(src.readDir(Config.InitilizeConstants(getenv).postsDir).value)|
    ensures r.Completed? ==>
      var paths := Config.InitilizeConstants(getenv);
      var names := EligibleNames(src.readDir(paths.postsDir).value);
      forall i :: 0 <= i < |names| ==>
        DerivedPost(r.posts[i], names[i], src.convert(JoinPath(paths.postsDir, names[i])))
    ensures r.Completed? ==> |r.trace| == |r.posts| + 1
    ensures r.Completed? ==> forall i :: 0 <= i < |r.posts| ==>
      r.trace[i] == Create(r.posts[i], Config.InitilizeConstants(getenv).outputDir, r.posts[i].filename, sink)
    ensures r.Completed? ==>
      r.trace[|r.posts|] == Write(Config.InitilizeConstants(getenv).outputDir, IndexFilename, IndexPage(r.posts), Written)
  {
    var paths := Config.InitilizeConstants(getenv);
    match mkdirAll(paths.outputDir)
    case Fail(msg) => Failed([], OutputDirNotCreated(msg))
    case Pass =>
      match Set(Posts([], paths.postsDir, paths.outputDir), src, sink)
      case Aborted(trace, stage, msg) => Failed(trace, PassFailed(stage, msg))
      case Done(collection, trace) =>
        var index := BuildIndex(collection, sink);
        match index.status
        case Written => Completed(collection.posts, trace + [index])
        case CreateFailed(msg) => Failed(trace + [index], PassFailed(CreatingIndex, msg))
        case ExecuteFailed(msg) => Failed(trace + [index], PassFailed(ExecutingIndex, msg))
  }

  /** A build completes exactly when the output directory is made, the
      listing is read, every eligible file converts and the index page is
      written; a failing post page does not stop it. */
  lemma CompletesIff(getenv: string -> string, mkdirAll: string -> Check, src: Source, sink: Sink)
    ensures Run(getenv, mkdirAll, src, sink).Completed? <==>
      var paths := Config.InitilizeConstants(getenv);
      && mkdirAll(paths.outputDir).Pass?
      && src.readDir(paths.postsDir).Ok?
      && (forall i :: 0 <= i < |EligibleNames(src.readDir(paths.postsDir).value)| ==>
            src.convert(JoinPath(paths.postsDir, EligibleNames(src.readDir(paths.postsDir).value)[i])).Ok?)
      && sink.create(paths.outputDir, IndexFilename).Pass?
      && sink.executeIndex(Set(Posts([], paths.postsDir, paths.outputDir), src, sink).collection.posts).Pass?
  {
    var paths := Config.InitilizeConstants(getenv);
    var p := Posts([], paths.postsDir, paths.outputDir);
    if mkdirAll(paths.outputDir).Pass? && src.readDir(paths.postsDir).Ok? {
      SetFailsIffConversionFails(p, src, sink);
    }
  }

  /** An empty posts directory still yields an index page, on zero posts. */
  lemma EmptyDirectoryStillIndexed(getenv: string -> string, mkdirAll: string -> Check, src: Source, sink: Sink)
    requires mkdirAll(Config.InitilizeConstants(getenv).outputDir).Pass?
    requires src.readDir(Config.InitilizeConstants(getenv).postsDir) == Ok([])
    requires sink.create(Config.InitilizeConstants(getenv).outputDir, IndexFilename).Pass?
    requires sink.executeIndex([]).Pass?
    ensures Run(getenv, mkdirAll, src, sink)
         == Completed([], [Write(Config.InitilizeConstants(getenv).outputDir, IndexFilename, IndexPage([]), Written)])
  {
  }

  /** "hello.md" and "world.md" beside "notes.txt" and a directory "drafts.md",
      with every collaborator succeeding: pages "hello.html" and "world.html",
      then an index over exactly those two posts. */
  lemma HelloWorldBuild(getenv: string -> string, mkdirAll: string -> Check, src: Source, sink: Sink)
    requires mkdirAll(Config.InitilizeConstants(getenv).outputDir).Pass?
    requires src.readDir(Config.InitilizeConstants(getenv).postsDir) ==
      Ok([Entry("hello.md", false), Entry("notes.txt", false), Entry("drafts.md", true), Entry("world.md", false)])
    requires forall path :: src.convert(path).Ok?
    requires forall dir, name :: sink.create(dir, name).Pass?
    requires forall post :: sink.executePost(post).Pass?
    requires forall posts :: sink.executeIndex(posts).Pass?
    ensures var r := Run(getenv, mkdirAll, src, sink);
      && r.Completed?
      && |r.posts| == 2 && |r.trace| == 3
      && r.posts[0].title == "hello" && r.posts[0].filename == "hello.html"
      && r.posts[1].title == "world" && r.posts[1].filename == "world.html"
      && r.trace[2].name == IndexFilename && r.trace[2].page == IndexPage(r.posts)
  {
    var paths := Config.InitilizeConstants(getenv);
    SampleListingNames();
    var p := Posts([], paths.postsDir, paths.outputDir);
    var s := Set(p, src, sink);
    SetFailsIffConversionFails(p, src, sink);
    assert s.Done?;
    var added := s.collection.posts;
    var names := EligibleNames(src.readDir(paths.postsDir).value);
    assert DerivedPost(added[0], names[0], src.convert(JoinPath(paths.postsDir, names[0])));
    AppendCancel(added[0].title, "hello", MarkdownSuffix);
    assert DerivedPost(added[1], names[1], src.convert(JoinPath(paths.postsDir, names[1])));
    AppendCancel(added[1].title, "world", MarkdownSuffix);
  }
}
