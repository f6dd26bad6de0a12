/** clone_website: derive the base URL and the clone folder from the URL,
    create the folders, walk the page's elements in document order, download
    the asset of every <link href> and <script src>, point the attribute at the
    local copy unless the download reported an error, and save the page as
    index.html. URL resolution (urljoin) is the parameter `resolve`; the page
    is an array of elements that the loop updates in place. */
module Clone {
  import opened Urls
  import opened Paths
  import opened Download

  /** An element of the parsed page: its tag name and attributes. */
  datatype Element = Element(name: string, attrs: map<string, string>)

  /** The two kinds of asset the cloner fetches. */
  datatype AssetClass = Css | Js

  /** What a file on disk holds: the bytes of an asset, the saved page, or a
      page whose writing broke off after the file was truncated (which part
      of the serialised page reached the file is not tracked). */
  datatype FileContent = Asset(bytes: seq<byte>) | Page(elements: seq<Element>) | PartialPage

  /** How saving index.html goes: open(..., 'w') raises, leaving the file as
      it was; or the open truncates the file and then the write or the close
      raises; or the page is written. */
  datatype PageWrite = OpenFailed(error: string) | WriteFailed(error: string) | Written

  /** clone_website returns a message to its caller or lets an exception escape. */
  datatype Outcome = Returned(message: string) | Raised(error: string)

  /** The paths of one cloning run, derived from the URL. */
  datatype Job = Job(baseUrl: string, folder: string) {
    function AssetFolder(c: AssetClass): string {
      Join(folder, Subdir(c))
    }

    function IndexPath(): string {
      Join(folder, "index.html")
    }
  }

  function JobFor(u: Url): Job {
    Job(BaseUrl(u), FolderName(u.netloc))
  }

  /** The attribute that references an asset of each class. */
  function AttrName(c: AssetClass): string {
    if c == Css then "href" else "src"
  }

  /** The sub-folder, and the prefix of the rewritten reference, of each class. */
  function Subdir(c: AssetClass): string {
    if c == Css then "css" else "js"
  }

  /** element.get(key) is truthy: the attribute is there and not empty. */
  predicate HasValue(e: Element, key: string) {
    key in e.attrs && e.attrs[key] != ""
  }

  /** The branch of the loop an element takes: a <link> with an href, a
      <script> with a src, or neither. */
  function Classify(e: Element): (c: Option<AssetClass>)
    ensures c.Some? ==> HasValue(e, AttrName(c.value))
    ensures c == Some(Css) <==> e.name == "link" && HasValue(e, "href")
    ensures c == Some(Js) <==> e.name == "script" && HasValue(e, "src")
  {
    if e.name == "link" && HasValue(e, "href") then Some(Css)
    else if e.name == "script" && HasValue(e, "src") then Some(Js)
    else None
  }

  /** full_url: the element's reference resolved against the base URL. */
  function AssetUrl(job: Job, resolve: (string, string) -> string, e: Element, c: AssetClass): string
    requires AttrName(c) in e.attrs
  {
    resolve(job.baseUrl, e.attrs[AttrName(c)])
  }

  /** The element after its turn in the loop, for the given download. */
  function Rewritten(job: Job, resolve: (string, string) -> string, e: Element, r: Response): Element {
    match Classify(e)
    case None => e
    case Some(c) =>
      var result := DownloadResult(AssetUrl(job, resolve, e, c), job.AssetFolder(c), r);
      if IsError(result) then e
      else e.(attrs := e.attrs[AttrName(c) := Join(Subdir(c), Basename(result))])
  }

  /** The file the element's download leaves on disk, if any. */
  function SavedBy(job: Job, resolve: (string, string) -> string, e: Element, r: Response): Option<SavedFile> {
    match Classify(e)
    case None => None
    case Some(c) => DownloadSaved(AssetUrl(job, resolve, e, c), job.AssetFolder(c), r)
  }

  function Store(files: map<string, FileContent>, s: Option<SavedFile>): map<string, FileContent> {
    if s.None? then files else files[s.value.path := Asset(s.value.bytes)]
  }

  /** The files on disk after the saves `saves`, in order. */
  function StoreAll(files: map<string, FileContent>, saves: seq<Option<SavedFile>>): map<string, FileContent> {
    if saves == [] then files
    else Store(StoreAll(files, saves[..|saves| - 1]), saves[|saves| - 1])
  }

  /** The file each element's download leaves, in document order; the
      download of element k is `responses(k)`. */
  function SavesOf(job: Job, resolve: (string, string) -> string, elems: seq<Element>,
                   responses: nat -> Response): seq<Option<SavedFile>>
  {
    seq(|elems|, k requires 0 <= k < |elems| => SavedBy(job, resolve, elems[k], responses(k)))
  }

  /** The files on disk after the downloads of `elems`, in document order. */
  function FilesAfter(files: map<string, FileContent>, job: Job, resolve: (string, string) -> string,
                      elems: seq<Element>, responses: nat -> Response): map<string, FileContent>
  {
    StoreAll(files, SavesOf(job, resolve, elems, responses))
  }

  /** The message of a completed run. */
  function SuccessMessage(folder: string): (m: string)
    ensures !IsError(m)
  {
    var m := "Klonlama tamamlandı! İçerikler '" + folder + "' klasöründe kaydedildi.";
    assert m[0] == 'K';
    m
  }

  /** The message os.makedirs raises for an empty path. */
  const EmptyPathError := "[Errno 2] No such file or directory: ''"

  /** The run gets past urlparse and the first os.makedirs. */
  predicate Starts(url: string) {
    Parse(url).Parsed? && FolderName(Parse(url).url.netloc) != ""
  }

  /** The local filesystem: the folders created and the files written. */
  class Disk {
    var dirs: set<string>
    var files: map<string, FileContent>

    constructor ()
      ensures dirs == {} && files == map[]
    {
      dirs, files := {}, map[];
    }

    /** os.makedirs(path, exist_ok=True) for a non-empty path. */
    method MakeDirs(path: string)
      modifies this
      ensures dirs == old(dirs) + {path} && files == old(files)
    {
      dirs := dirs + {path};
    }

    /** Opening `path` for writing and writing `content`. */
    method WriteFile(path: string, content: FileContent)
      modifies this
      ensures files == old(files)[path := content] && dirs == old(dirs)
    {
      files := files[path := content];
    }
  }

  /** One turn of clone_website's loop, on element i: a <link href> or
      <script src> has its asset downloaded into the class's folder (the file
      is kept whatever happens after it was opened) and its attribute set to
      the local copy unless the result starts with "Hata". */
  method VisitElement(job: Job, resolve: (string, string) -> string, doc: array<Element>, i: nat,
                      response: Response, disk: Disk)
    requires i < doc.Length
    modifies doc, disk
    ensures doc[i] == Rewritten(job, resolve, old(doc[i]), response)
    ensures forall k :: 0 <= k < doc.Length && k != i ==> doc[k] == old(doc[k])
    ensures disk.files == Store(old(disk.files), SavedBy(job, resolve, old(doc[i]), response))
    ensures disk.dirs == old(disk.dirs)
  {
    var link := doc[i];
    if link.name == "link" && HasValue(link, "href") {
      var href := link.attrs["href"];
      var fullUrl := resolve(job.baseUrl, href);
      var localCssPath, saved, frames, downloaded := DownloadFile(fullUrl, job.AssetFolder(Css), response);
      if saved.Some? {
        disk.WriteFile(saved.value.path, Asset(saved.value.bytes));
      }
      if !IsError(localCssPath) {
        doc[i] := link.(attrs := link.attrs["href" := Join("css", Basename(localCssPath))]);
      }
    } else if link.name == "script" && HasValue(link, "src") {
      var src := link.attrs["src"];
      var fullUrl := resolve(job.baseUrl, src);
      var localJsPath, saved, frames, downloaded := DownloadFile(fullUrl, job.AssetFolder(Js), response);
      if saved.Some? {
        disk.WriteFile(saved.value.path, Asset(saved.value.bytes));
      }
      if !IsError(localJsPath) {
        doc[i] := link.(attrs := link.attrs["src" := Join("js", Basename(localJsPath))]);
      }
    }
  }

  /** The loop of clone_website over the page's elements, in document order. */
  method RewriteAssets(job: Job, resolve: (string, string) -> string, doc: array<Element>,
                       responses: nat -> Response, disk: Disk)
    modifies doc, disk
    ensures forall k :: 0 <= k < doc.Length ==> doc[k] == Rewritten(job, resolve, old(doc[k]), responses(k))
    ensures disk.files == FilesAfter(old(disk.files), job, resolve, old(doc[..]), responses)
    ensures disk.dirs == old(disk.dirs)
  {
    ghost var original := doc[..];
    var i := 0;
    while i < doc.Length
      invariant 0 <= i <= doc.Length
      invariant forall k :: 0 <= k < i ==> doc[k] == Rewritten(job, resolve, original[k], responses(k))
      invariant forall k :: i <= k < doc.Length ==> doc[k] == original[k]
      invariant disk.files == FilesAfter(old(disk.files), job, resolve, original[..i], responses)
      invariant disk.dirs == old(disk.dirs)
    {
      ghost var saves := SavesOf(job, resolve, original[..i + 1], responses);
      assert original[..i + 1][..i] == original[..i];
      assert saves[..|saves| - 1] == SavesOf(job, resolve, original[..i], responses);
      VisitElement(job, resolve, doc, i, responses(i), disk);
      i := i + 1;
    }
    assert original[..doc.Length] == original;
  }

  /** clone_website(url). `rootError` is the request exception of the page
      fetch, if any; `doc` is the parsed page; `responses(k)` is the download
      of the asset of element k; `pageWrite` is how saving index.html goes. */
  method CloneWebsite(url: string, resolve: (string, string) -> string, rootError: Option<string>,
                      doc: array<Element>, responses: nat -> Response, pageWrite: PageWrite,
                      disk: Disk)
    returns (outcome: Outcome)
    modifies doc, disk
    ensures Parse(url).InvalidIPv6? ==>
              outcome == Raised("Invalid IPv6 URL") && unchanged(doc) && unchanged(disk)
    ensures Parse(url).Parsed? && !Starts(url) ==>
              outcome == Raised(EmptyPathError) && unchanged(doc) && unchanged(disk)
    ensures Starts(url) ==>
              var job := JobFor(Parse(url).url);
              disk.dirs == old(disk.dirs) + {job.folder, job.AssetFolder(Css), job.AssetFolder(Js)}
    ensures Starts(url) && rootError.Some? ==>
              outcome == Returned("HTTP Hatası: " + rootError.value)
              && unchanged(doc) && disk.files == old(disk.files)
    ensures Starts(url) && rootError.None? ==>
              var job := JobFor(Parse(url).url);
              && (forall k :: 0 <= k < doc.Length ==> doc[k] == Rewritten(job, resolve, old(doc[k]), responses(k)))
              && var assets := FilesAfter(old(disk.files), job, resolve, old(doc[..]), responses);
              && (pageWrite.OpenFailed? ==>
                    outcome == Returned("Beklenmeyen hata: " + pageWrite.error) && disk.files == assets)
              && (pageWrite.WriteFailed? ==>
                    outcome == Returned("Beklenmeyen hata: " + pageWrite.error)
                    && disk.files == assets[job.IndexPath() := PartialPage])
              && (pageWrite.Written? ==>
                    outcome == Returned(SuccessMessage(job.folder))
                    && disk.files == assets[job.IndexPath() := Page(doc[..])])
  {
    var parsed := Parse(url);
    if parsed.InvalidIPv6? {
      return Raised("Invalid IPv6 URL");
    }
    var baseUrl := BaseUrl(parsed.url);
    var folderName := FolderName(parsed.url.netloc);
    if folderName == "" {
      return Raised(EmptyPathError);
    }
    var job := Job(baseUrl, folderName);
    disk.MakeDirs(folderName);
    disk.MakeDirs(job.AssetFolder(Css));
    disk.MakeDirs(job.AssetFolder(Js));
    if rootError.Some? {
      return Returned("HTTP Hatası: " + rootError.value);
    }
    RewriteAssets(job, resolve, doc, responses, disk);
    match pageWrite
    case OpenFailed(e) =>
      return Returned("Beklenmeyen hata: " + e);
    case WriteFailed(e) =>
      disk.WriteFile(job.IndexPath(), PartialPage);
      return Returned("Beklenmeyen hata: " + e);
    case Written =>
      disk.WriteFile(job.IndexPath(), Page(doc[..]));
      outcome := Returned(SuccessMessage(folderName));
  }
}
