# go-blog content pipeline in Dafny

A functional model of the build pass of the go-blog static-site generator.
The generator scans a posts directory and keeps the entries that are not
directories and whose name ends in `.md`. It converts each one to HTML, appends a post (title, content,
page filename) to the collection, and renders that post's page. Once the scan
has returned, it writes `index.html` from the whole collection.

Modules, following the source layout:

- `Results` (`results.dfy`): `Result` for Go's `(value, error)` pairs and `Check` for a lone `error`.
- `GoStrings` (`go_strings.dfy`): `strings.HasSuffix` and `strings.TrimSuffix`.
- `Config` (`config.dfy`): `InitilizeConstants`, the three directory settings and their defaults. The process environment is a `getenv` parameter.
- `Entity` (`entity.dfy`): the `Post` and `Posts` types, `Create`, `Set`, `BuildIndex` and `GetAll` from `internal/entity/post.go`.
  - File output is a trace of `Write` events. Each event records the directory, the file name, the data the template ran on, and whether creation or template execution failed.
  - The directory listing and markdown conversion come in as a `Source`: functions that may fail.
  - File creation and the two templates come in as a `Sink`.
  - A panic is an `Aborted` outcome that keeps the writes attempted before it.
- `Blog` (`blog.dfy`): the driver in `cmd/blog/main.go`. It resolves the paths, creates the output directory, runs `Set`, and then runs `BuildIndex`.
- `Early` (`early.dfy`): the earlier standalone version of the program, `main.go` at the repository root. It uses the same filter, gives each post its source path as `filename`, and prints those filenames in order.

`Set` is the loop of `post.go` written as a recursion over the listing. `Scan`
processes every entry but the last and then applies `Step`, the loop body, to
the last one. So the posts are appended in listing order, and the first
failing conversion ends the pass.

`Create`'s error is dropped at internal/entity/post.go:71, so a failing page
leaves its post in the collection and the loop goes on. `Entity.RenderErrorIgnored` and
`Blog.CompletesIff` state this behaviour.

## Model

| member | source | states |
|---|---|---|
| GoStrings.TrimSuffix | internal/entity/post.go:64 | trimming ".md" from a name that ends in it leaves a title that gives back the name when ".md" is appended; any other name is left as it is |
| GoStrings.SuffixOfAppend | internal/entity/post.go:55 | a string built as title + suffix ends with the suffix, and trimming that suffix gives back the title (round trip) |
| Config.InitilizeConstants | config/constants.go:13-37 | an empty POSTS_DIR, OUTPUT_DIR or TEMPLATE_DIR gives "posts", "public" or "templates"; a non-empty value is kept as given; no resolved directory is ever empty |
| Config.EachFieldOwnVariable | config/constants.go:18-34 | each directory depends only on its own variable: environments that agree on that variable resolve it alike |
| Config.ResolvedPathsAreStable | config/constants.go:14-34 | resolving an environment that already holds the resolved directories yields the same paths |
| GoStrings.HasSuffixMeaning | internal/entity/post.go:50 | a name passes the suffix test exactly when it is some string followed by the suffix |
| Entity.EligibleMeaning | internal/entity/post.go:50 | an entry is kept exactly when it is not a directory and its name is some title followed by ".md" |
| Entity.JoinPathSplits | internal/entity/post.go:54 | the path a markdown file is read from (and, in the earlier version, a post's filename, main.go:46) is the directory, one "/", then the file name, and splits back into those parts |
| Entity.EligibleNames | internal/entity/post.go:49-52 | the kept names are never more than the listing entries, and every kept name ends in ".md" |
| Entity.EligibleSelection | internal/entity/post.go:49-52 | the filter keeps exactly the non-directory entries whose name ends case-sensitively in ".md": each kept name comes from such an entry, every such entry is kept, and they stay in strictly increasing listing order |
| Entity.EligibilityExamples | internal/entity/post.go:50 | "a.MD" and "notes.txt" are skipped, a directory named "x.md" is skipped, and ".md" is a post whose title is empty |
| Entity.SampleListingNames | internal/entity/post.go:49-52 | from hello.md, notes.txt, a directory drafts.md and world.md, only hello.md and world.md are kept, in that order |
| Entity.Create | internal/entity/post.go:29-40 | a post write targets the given directory and file and hands the post to the template; it succeeds exactly when creation and template execution both pass, and the template is not run when creation fails |
| Entity.Step | internal/entity/post.go:49-72 | one loop iteration: a skipped entry changes nothing; a failed conversion aborts with the writes made so far; otherwise exactly one post is appended, derived from the name and the converted content, and exactly one write of that post's page is added |
| Entity.Scan | internal/entity/post.go:49-72 | earlier posts stay as a prefix; one post is added per eligible entry, in listing order; post i has the converted content, a title equal to name i without ".md", and filename title + ".html"; write i is the page of post i under its filename; an abort happens at the first eligible entry whose conversion failed, and every write before it is the page of the eligible entry at its place, derived from that entry and written by `Create` into the output directory |
| Entity.Set | internal/entity/post.go:42-73 | a listing error panics before any write; on success the directories are unchanged, earlier posts stay as a prefix, and one post is added per eligible entry in listing order, with the converted content, the entry name without ".md" as title and title + ".html" as filename; write i is the page of added post i under its filename, in the output directory; with a readable listing, also after an abort, write i is the page of eligible entry i |
| Entity.SetFailsIffConversionFails | internal/entity/post.go:57-61 | with a readable listing, the pass fails if and only if the conversion of some eligible file fails |
| Entity.RenderErrorIgnored | internal/entity/post.go:69-71 | however rendering succeeds or fails, the pass gives the same verdict, the same collection, and writes of the same pages to the same file names |
| Entity.BuildIndex | internal/entity/post.go:75-88 | the index write targets "index.html" in the output directory and hands the template the whole collection unchanged; it fails when creation or template execution fails |
| Entity.GetAll | internal/entity/post.go:90-92 | hands back the accumulated collection unchanged |
| Entity.IndexAndGetAllAgree | internal/entity/post.go:90-92 | the collection the index template receives is exactly what GetAll returns |
| Early.Collect | main.go:39-50 | one post per eligible entry, in listing order; the title is the name without ".md", the filename is "posts/" + name, and the content is empty |
| Early.PrintAll | main.go:52-54 | the printed lines are exactly the filenames of the posts, one per post, in order |
| Early.EarlyMain | main.go:32-55 | a listing error on "posts" panics; otherwise one post per eligible entry, and the printed lines are the source paths "posts/" + name of the eligible files, in listing order |
| Early.SameTitlesAsSet | main.go:44-47 | the early version and Set give the same titles to the same files; the early filename is "posts/" + title + ".md" where Set's is title + ".html" |
| Blog.Run | cmd/blog/main.go:25-46 | nothing is written when the output directory cannot be made; every write goes into the resolved output directory; a completed build holds one post per eligible entry in listing order, each with the converted content, the name without ".md" as title and title + ".html" as filename; it writes each post's page in order and ends with index.html over exactly that collection |
| Blog.CompletesIff | cmd/blog/main.go:32-46 | a build completes if and only if the output directory is made, the listing is read, every eligible file converts, and the index is created and rendered; a failing post page does not stop it |
| Blog.EmptyDirectoryStillIndexed | cmd/blog/main.go:43-44 | an empty posts directory still yields an index page rendered over zero posts, and nothing else is written |
| Blog.HelloWorldBuild | cmd/blog/main.go:43-44 | with hello.md, notes.txt, a directory drafts.md and world.md, the build produces the posts hello (hello.html) and world (world.html) and makes exactly three writes, the last being index.html over those two posts |

## Left out

- Markdown conversion (internal/helpers/convert-md-to-html.go) is `Source.convert`, a function from the input path to HTML or an error. The file read and the goldmark library are not part of this model, and neither is goldmark's error, which the source ignores.
- `os.ReadDir` returns its entries sorted by file name. `Source.readDir` deliberately leaves the order of the listing unconstrained, so every property holds for any order, but "posts and the index are in name order" is not stated. Listing names that contain a separator, which no listing produces, are not excluded either.
- Page output is an event, not bytes. `filepath.Join` of the output directory and file name is not modelled: each event carries the two separately. The rendered text, `defer Close` and `os.Create` truncation are not modelled either.
- `html/template` execution is `Sink.executePost` and `Sink.executeIndex`, reduced to pass or fail. The event records the data the template ran on, not what the template printed.
- Template parsing with `template.Must` (cmd/blog/main.go:39-40, main.go:22-23) is not modelled. It is library behaviour that panics before the pass starts.
- Logger output (config/config.go, `Errorf` calls in post.go) is not modelled. A panic is a `Failure`/`Aborted` value, not control flow.
- config/config.go's package-level singletons are not modelled. `cmd/blog/main.go` calls `GetPaths` twice, in `init` and in `main`; the model resolves the paths once, because the environment does not change in between.
- The earlier version's `filepath.Join("posts", name)` is modelled by `Entity.JoinPath` as `"posts/" + name`. This is exact for the fixed clean directory "posts" and a listing name, which has no separator and, ending in ".md", is never "." or "..".
- Early.EarlyMain: the early version's `init` (main.go:26-30), which creates the output directory, and its package-level `template.Must` calls (main.go:22-23) are not modelled. Either can panic before `main` runs, so the contract's promise that a readable listing is always printed assumes both succeeded.
- Names are modelled as sequences of characters, while Go compares bytes. For the ASCII suffixes ".md" and ".html" the two agree.
