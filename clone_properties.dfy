/** What clone_website's loop does to the page and to the disk, stated over
    the specification functions of module Clone. */
module CloneProperties {
  import opened Urls
  import opened Paths
  import opened Download
  import opened Clone

  /** The clone folder of a run that starts has no '/' and is not empty, so
      its sub-folders and index file sit directly under it. */
  lemma JobShape(url: string)
    requires Starts(url)
    ensures var job := JobFor(Parse(url).url);
      && job.folder != "" && '/' !in job.folder
      && job.AssetFolder(Css) == job.folder + "/" + "css"
      && job.AssetFolder(Js) == job.folder + "/" + "js"
      && job.IndexPath() == job.folder + "/" + "index.html"
  {
    JobShapeOf(Parse(url).url);
  }

  lemma JobShapeOf(u: Url)
    requires NoNetlocDelimiter(u.netloc) && FolderName(u.netloc) != ""
    ensures var job := JobFor(u);
      && job.folder != "" && '/' !in job.folder
      && job.AssetFolder(Css) == job.folder + "/" + "css"
      && job.AssetFolder(Js) == job.folder + "/" + "js"
      && job.IndexPath() == job.folder + "/" + "index.html"
  {
    var f := FolderName(u.netloc);
    NoSlashInFolder(u.netloc);
    assert '/' !in "css" && '/' !in "js" && '/' !in "index.html";
    JoinUnderFolder(f, "css");
    JoinUnderFolder(f, "js");
    JoinUnderFolder(f, "index.html");
  }

  lemma NoSlashInFolder(netloc: string)
    requires NoNetlocDelimiter(netloc)
    ensures '/' !in FolderName(netloc)
  {
    var f := FolderName(netloc);
    forall k | 0 <= k < |f| ensures f[k] != '/' {
      assert !IsNetlocDelimiter(netloc[k]);
    }
  }

  /** Where a candidate's asset is saved under a clone folder without '/',
      whether that path passes the "Hata" test, and what the attribute
      becomes when it does. */
  lemma CandidatePath(job: Job, url: string, c: AssetClass)
    requires job.folder != "" && '/' !in job.folder
    ensures LocalPath(job.AssetFolder(c), url) == job.folder + "/" + Subdir(c) + "/" + Basename(url)
    ensures IsError(LocalPath(job.AssetFolder(c), url)) <==> IsError(job.folder)
    ensures Join(Subdir(c), Basename(LocalPath(job.AssetFolder(c), url))) == Subdir(c) + "/" + Basename(url)
  {
    AssetPath(job, url, c);
    CandidateErrorIff(job, url, c);
    CandidateReference(job, url, c);
  }

  lemma CandidateErrorIff(job: Job, url: string, c: AssetClass)
    requires job.folder != "" && '/' !in job.folder
    ensures IsError(LocalPath(job.AssetFolder(c), url)) <==> IsError(job.folder)
  {
    var p := LocalPath(job.AssetFolder(c), url);
    var rest := Subdir(c) + "/" + Basename(url);
    assert p == job.folder + "/" + rest by {
      AssetPath(job, url, c);
      assert job.folder + "/" + Subdir(c) + "/" + Basename(url) == job.folder + "/" + rest;
    }
    ErrorPrefixOfPath(job.folder, rest);
  }

  lemma CandidateReference(job: Job, url: string, c: AssetClass)
    requires job.folder != "" && '/' !in job.folder
    ensures Join(Subdir(c), Basename(LocalPath(job.AssetFolder(c), url))) == Subdir(c) + "/" + Basename(url)
  {
    AssetPath(job, url, c);
    SubdirShape(c);
    var d := Subdir(c);
    assert d[|d| - 1] in d;
    JoinUnderFolder(d, Basename(url));
  }

  lemma AssetPath(job: Job, url: string, c: AssetClass)
    requires job.folder != "" && '/' !in job.folder
    ensures LocalPath(job.AssetFolder(c), url) == job.folder + "/" + Subdir(c) + "/" + Basename(url)
    ensures Basename(LocalPath(job.AssetFolder(c), url)) == Basename(url)
  {
    SubdirShape(c);
    NestedPath(job.folder, Subdir(c), url);
  }

  lemma SubdirShape(c: AssetClass)
    ensures Subdir(c) != [] && '/' !in Subdir(c)
  {
    var d := Subdir(c);
    forall k | 0 <= k < |d| ensures d[k] != '/' {
    }
  }

  /** Elements that are not a <link href> or a <script src> are left as they
      are; a candidate keeps its name, its set of attributes and the value of
      every attribute but the one that references its asset. */
  lemma RewriteTouchesOnlyTarget(job: Job, resolve: (string, string) -> string, e: Element, r: Response)
    ensures var e' := Rewritten(job, resolve, e, r);
      && e'.name == e.name && e'.attrs.Keys == e.attrs.Keys
      && (Classify(e).None? ==> e' == e)
      && forall key :: key in e.attrs && (Classify(e).None? || key != AttrName(Classify(e).value)) ==>
           e'.attrs[key] == e.attrs[key]
  {
  }

  /** A failed download leaves the element, and so its remote reference, as
      it was. */
  lemma FailureKeepsElement(job: Job, resolve: (string, string) -> string, e: Element, r: Response)
    requires Failed(r)
    ensures Rewritten(job, resolve, e, r) == e
  {
    match Classify(e)
    case None =>
    case Some(c) =>
      ResultIsErrorIff(AssetUrl(job, resolve, e, c), job.AssetFolder(c), r);
  }

  /** For a clone folder without '/', the element's turn in the loop in full:
      a candidate whose download succeeds points at css/<basename> or
      js/<basename> of its resolved URL, unless the folder's name starts with
      "Hata"; in every other case it is unchanged. */
  lemma RewrittenCharacterised(job: Job, resolve: (string, string) -> string, e: Element, r: Response)
    requires job.folder != "" && '/' !in job.folder
    requires Classify(e).Some?
    ensures var c := Classify(e).value;
      Rewritten(job, resolve, e, r) ==
        if Failed(r) || IsError(job.folder) then e
        else e.(attrs := e.attrs[AttrName(c) := Subdir(c) + "/" + Basename(AssetUrl(job, resolve, e, c))])
  {
    var c := Classify(e).value;
    var url := AssetUrl(job, resolve, e, c);
    CandidatePath(job, url, c);
    ResultIsErrorIff(url, job.AssetFolder(c), r);
  }

  /** The file a candidate's download leaves: under the class's folder, named
      by the basename of the resolved URL, holding the chunks received. */
  lemma SavedFileOfCandidate(job: Job, resolve: (string, string) -> string, e: Element, r: Response)
    requires job.folder != "" && '/' !in job.folder
    requires Classify(e).Some? && r.Streamed?
    ensures var c := Classify(e).value;
      SavedBy(job, resolve, e, r) ==
        Some(SavedFile(job.folder + "/" + Subdir(c) + "/" + Basename(AssetUrl(job, resolve, e, c)),
                       Flatten(Taken(r.chunks))))
  {
    var c := Classify(e).value;
    CandidatePath(job, AssetUrl(job, resolve, e, c), c);
  }

  /** The prefix test quirk: when the clone folder's name starts with "Hata"
      (a host such as Hatay.gov.tr), every download looks failed and no
      reference is ever rewritten, although the files are saved. */
  lemma HataFolderFreezesPage(job: Job, resolve: (string, string) -> string, e: Element, r: Response)
    requires IsError(job.folder)
    ensures Rewritten(job, resolve, e, r) == e
    ensures Classify(e).Some? && r.Streamed? ==> SavedBy(job, resolve, e, r).Some?
  {
    match Classify(e)
    case None =>
    case Some(c) =>
      var folder := job.AssetFolder(c);
      assert folder[..4] == job.folder[..4];
      if !Failed(r) {
        SuccessMistakenForError(AssetUrl(job, resolve, e, c), folder, r);
      }
  }

  lemma FolderNameIs(netloc: string, folder: string)
    requires |netloc| == |folder|
    requires forall k :: 0 <= k < |netloc| ==> folder[k] == (if netloc[k] == '.' then '_' else netloc[k])
    ensures FolderName(netloc) == folder
  {
  }

  /** A run on a host whose name starts with "Hata", such as Hatay.gov.tr
      (see HatayParse), is such a run. */
  lemma HataHostFreezesPage(url: string, resolve: (string, string) -> string, e: Element, r: Response)
    requires Parse(url).Parsed? && IsError(Parse(url).url.netloc)
    ensures Starts(url)
    ensures IsError(JobFor(Parse(url).url).folder)
    ensures Rewritten(JobFor(Parse(url).url), resolve, e, r) == e
  {
    var netloc := Parse(url).url.netloc;
    var job := JobFor(Parse(url).url);
    assert job.folder[..4] == netloc[..4] by {
      assert forall k :: 0 <= k < 4 ==> job.folder[k] == netloc[k] by {
        assert forall k :: 0 <= k < 4 ==> netloc[k] == netloc[..4][k];
      }
    }
    HataFolderFreezesPage(job, resolve, e, r);
  }

  /** https://Hatay.gov.tr/ has the host Hatay.gov.tr, a name starting with
      "Hata" (HataPrefix), so HataHostFreezesPage applies to it. */
  lemma HatayParse()
    ensures Parse("https://Hatay.gov.tr/") == Parsed(Url("https", "Hatay.gov.tr", "/"))
  {
    assert "https://Hatay.gov.tr/" == "https" + "://" + "Hatay.gov.tr" + "/";
    LowerOfLower("https");
    assert !UnbalancedBrackets("Hatay.gov.tr");
    ParseComposed("https", "Hatay.gov.tr", "/");
  }

  /** A name whose first four characters are H, a, t, a passes the test, as
      the host Hatay.gov.tr does. */
  lemma HataPrefix(s: string)
    requires |s| >= 4 && s[0] == 'H' && s[1] == 'a' && s[2] == 't' && s[3] == 'a'
    ensures IsError(s)
  {
    assert s[..4] == "Hata";
  }

  /** main's colour test `"Hata" in result` finds "Hata" in the message of a
      completed run whenever the folder name starts with it, as Hatay_gov_tr
      does: the folder name follows the 32 characters of the message's head. */
  lemma SuccessMessageContainsHata(folder: string)
    requires IsError(folder)
    ensures SuccessMessage(folder)[32..36] == "Hata"
  {
    var head := "Klonlama tamamlandı! İçerikler '";
    var tail := "' klasöründe kaydedildi.";
    assert |head| == 32;
    assert SuccessMessage(folder) == head + folder + tail;
    InfixAt(head, folder, tail, 4);
  }

  lemma InfixAt(a: string, b: string, c: string, n: nat)
    requires n <= |b|
    ensures (a + b + c)[|a|..|a| + n] == b[..n]
  {
    assert forall k :: 0 <= k < n ==> (a + b + c)[|a| + k] == b[k];
  }

  /** An example run: https://example.test/ is cloned
      into example_test, with https://example.test as the base URL. */
  lemma ExampleJob()
    ensures Starts("https://example.test/")
    ensures JobFor(Parse("https://example.test/").url) == Job("https://example.test", "example_test")
  {
    ExampleParse();
    ExampleFolder();
    ExampleBase();
  }

  lemma ExampleBase()
    ensures BaseUrl(Url("https", "example.test", "/")) == "https://example.test"
  {
  }

  lemma ExampleParse()
    ensures Parse("https://example.test/") == Parsed(Url("https", "example.test", "/"))
  {
    assert "https://example.test/" == "https" + "://" + "example.test" + "/";
    LowerOfLower("https");
    assert !UnbalancedBrackets("example.test");
    ParseComposed("https", "example.test", "/");
  }

  lemma ExampleFolder()
    ensures FolderName("example.test") == "example_test"
  {
    FolderNameIs("example.test", "example_test");
  }

  /** The local names of the example's stylesheet and script. */
  lemma ExampleBasenames()
    ensures Basename("https://example.test/styles/main.css") == "main.css"
    ensures Basename("https://cdn.example.test/app.js") == "app.js"
  {
    assert "https://example.test/styles/main.css" == "https://example.test/styles" + "/" + "main.css";
    assert "https://cdn.example.test/app.js" == "https://cdn.example.test" + "/" + "app.js";
    NoSlash("main.css");
    NoSlash("app.js");
    BasenameAfterSlash("https://example.test/styles", "main.css");
    BasenameAfterSlash("https://cdn.example.test", "app.js");
  }

  /** The last download saved to a path decides what the path holds. */
  lemma LastSaveWins(files: map<string, FileContent>, job: Job,
                     resolve: (string, string) -> string, elems: seq<Element>,
                     responses: nat -> Response, j: nat)
    requires j < |elems| && SavedBy(job, resolve, elems[j], responses(j)).Some?
    requires forall k :: j < k < |elems| ==>
               var s := SavedBy(job, resolve, elems[k], responses(k));
               s.None? || s.value.path != SavedBy(job, resolve, elems[j], responses(j)).value.path
    ensures var s := SavedBy(job, resolve, elems[j], responses(j)).value;
      s.path in FilesAfter(files, job, resolve, elems, responses)
      && FilesAfter(files, job, resolve, elems, responses)[s.path] == Asset(s.bytes)
  {
    LastStoreWins(files, SavesOf(job, resolve, elems, responses), j);
  }

  /** A path no download saves to keeps what it held before the loop. */
  lemma UnsavedPathKept(files: map<string, FileContent>, job: Job,
                        resolve: (string, string) -> string, elems: seq<Element>,
                        responses: nat -> Response, p: string)
    requires forall k :: 0 <= k < |elems| ==>
               var s := SavedBy(job, resolve, elems[k], responses(k));
               s.None? || s.value.path != p
    ensures p in FilesAfter(files, job, resolve, elems, responses) <==> p in files
    ensures p in files ==> FilesAfter(files, job, resolve, elems, responses)[p] == files[p]
  {
    UnstoredPathKept(files, SavesOf(job, resolve, elems, responses), p);
  }

  lemma {:induction false} LastStoreWins(files: map<string, FileContent>, saves: seq<Option<SavedFile>>, j: nat)
    requires j < |saves| && saves[j].Some?
    requires forall k :: j < k < |saves| ==> saves[k].None? || saves[k].value.path != saves[j].value.path
    ensures saves[j].value.path in StoreAll(files, saves)
    ensures StoreAll(files, saves)[saves[j].value.path] == Asset(saves[j].value.bytes)
  {
    var n := |saves| - 1;
    if j < n {
      var init := saves[..n];
      assert forall k :: 0 <= k < n ==> init[k] == saves[k];
      LastStoreWins(files, init, j);
    }
  }

  lemma {:induction false} UnstoredPathKept(files: map<string, FileContent>, saves: seq<Option<SavedFile>>, p: string)
    requires forall k :: 0 <= k < |saves| ==> saves[k].None? || saves[k].value.path != p
    ensures p in StoreAll(files, saves) <==> p in files
    ensures p in files ==> StoreAll(files, saves)[p] == files[p]
  {
    if saves != [] {
      var n := |saves| - 1;
      var init := saves[..n];
      assert forall k :: 0 <= k < n ==> init[k] == saves[k];
      UnstoredPathKept(files, init, p);
    }
  }

  /** The basename collision: two stylesheets whose resolved URLs end in the
      same segment are both pointed at the same local file, and that file
      holds only the bytes of the later download. */
  lemma SharedBasenameOverwrites(files: map<string, FileContent>, job: Job,
                                 resolve: (string, string) -> string, e1: Element, e2: Element,
                                 responses: nat -> Response)
    requires job.folder != "" && '/' !in job.folder && !IsError(job.folder)
    requires Classify(e1) == Some(Css) && Classify(e2) == Some(Css)
    requires Basename(AssetUrl(job, resolve, e1, Css)) == Basename(AssetUrl(job, resolve, e2, Css))
    requires responses(0).Streamed? && responses(1).Streamed? && !Failed(responses(0)) && !Failed(responses(1))
    ensures Rewritten(job, resolve, e1, responses(0)).attrs["href"]
            == Rewritten(job, resolve, e2, responses(1)).attrs["href"]
    ensures var p := SavedBy(job, resolve, e1, responses(0)).value.path;
      && p == SavedBy(job, resolve, e2, responses(1)).value.path
      && FilesAfter(files, job, resolve, [e1, e2], responses)[p] == Asset(Flatten(Taken(responses(1).chunks)))
  {
    RewrittenCharacterised(job, resolve, e1, responses(0));
    RewrittenCharacterised(job, resolve, e2, responses(1));
    SavedFileOfCandidate(job, resolve, e1, responses(0));
    SavedFileOfCandidate(job, resolve, e2, responses(1));
    LastSaveWins(files, job, resolve, [e1, e2], responses, 1);
  }
}
