# webklonlama: the cloning core, modelled in Dafny

`webklonlama.py` is a terminal tool that clones a web page. It works in five steps:

1. It reads a URL.
2. It derives a base URL (`scheme://netloc`) and a folder name (the network location with every `.` replaced by `_`).
3. It creates the folder and its `css` and `js` sub-folders.
4. It walks the page's `<link>` and `<script>` elements in document order. For every `<link href>` and `<script src>` it:
   - downloads the referenced asset by reads of up to 8192 bytes into the class's folder;
   - while that runs, shows a percentage and a 50-column `#`/`-` bar;
   - rewrites the attribute to `css/<name>` or `js/<name>` unless the download result starts with `"Hata"`.
5. It saves the page as `index.html`.

This project models that core and proves properties of it:

- the naming of outputs: `urls.dfy` and `paths.dfy`;
- the progress arithmetic: `progress.dfy`;
- the chunk loop of `download_file` as a method with loop invariants: `download.dfy`;
- `clone_website`, with the loop rewriting an array of elements in place and a `Disk` object with the folders and files written, in `clone.dfy`; its properties are in `clone_properties.dfy`.

The environment is given as parameters:

- URL resolution (`urljoin`) is a function parameter `resolve`. Nothing is assumed about it.
- Each transfer is a `Response`. `Refused` means it raised before the local file was opened, so no file is left. `Streamed` means the file was opened; it gives the header's content length, the successive chunks, and optionally an exception raised by the read after the last chunk. A read that raises before any chunk is `Streamed` with no chunks, and leaves an empty file.
- The download of element `k` is `responses(k)`.
- The page fetch error is an optional message.
- Saving `index.html` is a `PageWrite`: the open raises (the file is left as it was), the write or close raises after the open truncated the file (the file is left as a `PartialPage`), or the page is written.

Three facts about the code shape the model:

- the folder name replaces only `.`, and no other character;
- two assets with the same basename are not disambiguated: the later download overwrites the earlier;
- the loop mutates the parsed elements in place.

## Model

| member | source | states |
|---|---|---|
| Urls.Parse | webklonlama.py:38 | urlparse as the cloner needs it: a parsed result has a lower-case scheme, a network location with no `/`, `?` or `#` and balanced IPv6 brackets, and a rest that is a suffix of the input and, when the network location is not empty, starts at a delimiter; the ValueError case carries a network location with an unbalanced bracket. ParseComposed says which result a composed URL gets |
| Urls.ParseComposed | webklonlama.py:38 | round trip: for any valid scheme, upper-case letters included, any delimiter-free network location and a rest that is empty or starts with a delimiter, parsing `scheme://netloc` + rest raises exactly when the network location has an unbalanced IPv6 bracket, and otherwise gives back the lower-cased scheme, the network location and the rest |
| Urls.BaseUrlDropsRest | webklonlama.py:38-39 | the base URL of `scheme://netloc/...` is the lower-cased scheme, `://` and the network location: path, query and fragment are dropped (so `HTTPS://Host/x` gives `https://Host`) |
| Urls.BaseUrlIsPrefix | webklonlama.py:38-39 | for a URL with a lower-case scheme followed by `://`, the base URL is a prefix of the URL, and the URL is the base URL followed by the part Parse leaves over |
| Urls.BaseUrl | webklonlama.py:39 | base_url starts with the scheme, holds `://` right after it and ends with the network location, with nothing else in it |
| Urls.FolderName | webklonlama.py:41 | the folder name has the netloc's length, holds `_` wherever the netloc holds `.`, holds every other character unchanged, and contains no `.` |
| Urls.FolderNameIdempotent | webklonlama.py:41 | renaming a folder name again changes nothing |
| Urls.FolderNameCollides | webklonlama.py:41 | the renaming is not injective: hosts `a.b` and `a_b` share a folder |
| Paths.Basename | webklonlama.py:11 | os.path.basename: the result has no `/`, is a suffix of the path, and is preceded by a `/` when it is shorter than the path |
| Paths.BasenameUnique | webklonlama.py:11 | those three properties determine the basename: any string with them is the basename |
| Paths.BasenameOfJoin | webklonlama.py:62 | a `/`-free name joined to any folder is recovered by basename, which is why the rewritten reference names the saved file |
| Paths.Join | webklonlama.py:44-45 | os.path.join for two components; JoinUnderFolder and BasenameOfJoin state what it gives for the folders and names the cloner joins |
| Paths.LocalPath | webklonlama.py:11 | local_filename, the folder joined with the URL's basename; LocalPathShape, NestedPath and SameBasenameSamePath state where it lands |
| Paths.JoinUnderFolder | webklonlama.py:44-45 | os.path.join of a non-empty folder not ending in `/` and a `/`-free name inserts exactly one `/` |
| Paths.LocalPathShape | webklonlama.py:11 | the local file is the folder, `/` and the URL's last `/`-separated segment; its basename is that segment |
| Paths.NestedPath | webklonlama.py:11 | an asset saved into a sub-folder of the clone folder lands at `folder/sub/<basename of URL>` |
| Paths.SameBasenameSamePath | webklonlama.py:11 | two URLs with the same last segment are saved to the same local file |
| Paths.BasenameAfterSlash | webklonlama.py:11 | the basename of `dir/name` with a `/`-free name is that name |
| Paths.BasenameCollision | webklonlama.py:11 | two different stylesheet URLs, on different hosts, map to one local file |
| Progress.TruncDiv | webklonlama.py:24 | int() of a quotient truncates toward zero: bounds of the quotient for positive and for negative divisors |
| Progress.Percent | webklonlama.py:24 | progress is 100 when the total size is 0; for a positive total it is the truncated quotient `q >= 0` with `q*total <= downloaded*100 < (q+1)*total`; for a negative total (a negative header) it is `q <= 0` with `-q*(-total) <= downloaded*100 < (-q+1)*(-total)`, the quotient truncated toward zero |
| Progress.PercentBounds | webklonlama.py:24 | while no more bytes than content-length have arrived, progress is in 0..100, and it is 100 exactly when all bytes have arrived |
| Progress.PercentMonotone | webklonlama.py:23-24 | for a positive content-length, progress never decreases as the counter grows |
| Progress.Repeat | webklonlama.py:28 | Python's `c * n`: `n` copies of `c`, none for `n <= 0` |
| Progress.Bar | webklonlama.py:28 | for progress in 0..100 the bar has 50 columns, with `#` exactly at the first `progress // 2`; past 100 it is `progress // 2` `#` and no `-` (50 columns at 101, longer from 102 on); below 0 it is only `-`, `50 - progress // 2` of them |
| Progress.BarCount | webklonlama.py:28 | an in-range bar holds `progress // 2` `#` and `50 - progress // 2` `-` |
| Progress.OverrunWidensBar | webklonlama.py:24 | a body three times the announced length shows 300% and a 150-column bar |
| Download.ErrorText | webklonlama.py:33-34 | the text of a caught exception starts with `Hata` |
| Download.IsError | webklonlama.py:61 | str.startswith("Hata"); ErrorText, ResultIsErrorIff and ErrorPrefixOfPath state when a result passes it |
| Download.FirstEmpty | webklonlama.py:18-21 | the loop stops at the first empty chunk: all earlier chunks are non-empty |
| Download.DownloadFile | webklonlama.py:8-34 | download_file returns the error text for a refused request and otherwise the result of the reads (path or error text), leaves the chunks read as the file, and shows one frame per chunk; these are the specification functions DownloadResult, DownloadSaved and DownloadFrames |
| Download.ReadChunks | webklonlama.py:16-30 | after the loop the bytes written are the chunks before the first empty one, concatenated in order; the counter is the sum of their lengths; frame `k` is the progress after chunk `k`; an exception is raised only when the chunks ran out without an empty one |
| Download.FlattenLength | webklonlama.py:22-23 | the counter equals the number of bytes written |
| Download.FlattenAt | webklonlama.py:22 | each chunk is appended to what was written before it |
| Download.FramesAt | webklonlama.py:23-28 | there is one frame per chunk, and the frame after chunk `k` shows the progress of the bytes in chunks 0..k |
| Download.TotalLengthPrefix | webklonlama.py:23 | the counter after any chunk is at most the final counter |
| Download.FramesStayInBar | webklonlama.py:24 | when the body is no longer than content-length, every frame shows 0..100% and a 50-column bar |
| Download.CompleteTransferEndsFull | webklonlama.py:24 | a body of exactly content-length bytes ends on a frame of 100% and 50 `#` |
| Download.ResultIsErrorIff | webklonlama.py:32-34 | the result starts with `Hata` exactly when the transfer raised or the local path itself starts with `Hata`; otherwise the result is the local path |
| Download.ErrorPrefixOfPath | webklonlama.py:61 | a path under a `/`-free folder starts with `Hata` exactly when the folder does |
| Download.SuccessMistakenForError | webklonlama.py:61 | a successful download into a folder named `Hata...` is still taken for an error, and its file is kept |
| Clone.Classify | webklonlama.py:57-63 | an element is a stylesheet exactly when it is a `link` with a non-empty `href`, and a script exactly when it is a `script` with a non-empty `src` |
| Clone.JobFor | webklonlama.py:39-41 | the run's base URL (`base_url`) and folder name (`folder_name`) from the parsed URL; JobShape, JobShapeOf, ExampleJob and HataHostFreezesPage state what they are |
| Clone.Job.AssetFolder | webklonlama.py:44-45 | `css_folder` / `js_folder`, the folder joined with `css` or `js`; JobShape and AssetPath give it as `folder/css` and `folder/js` |
| Clone.Job.IndexPath | webklonlama.py:71 | `html_file_path`, the folder joined with `index.html`; JobShape gives it as `folder/index.html` |
| Clone.AssetUrl | webklonlama.py:59-65 | `full_url = urljoin(base_url, href or src)`, through the parameter `resolve`; CandidatePath, AssetPath and SavedFileOfCandidate say where its asset is saved |
| Clone.HasValue | webklonlama.py:57-63 | `element.get(key)` is truthy: the attribute is present and not empty; Classify states the branch it selects |
| Clone.Rewritten | webklonlama.py:56-68 | the element after its loop turn; RewriteTouchesOnlyTarget, FailureKeepsElement and RewrittenCharacterised state what it keeps and what it changes |
| Clone.VisitElement | webklonlama.py:56-68 | one turn of the loop: element `i` becomes Rewritten of its old value, every other element is unchanged, and the file of its download, if any, is stored on disk |
| Clone.RewriteAssets | webklonlama.py:56-68 | the loop visits every element once: each element becomes Rewritten of its old value under its own download, and the disk holds the saves applied in document order |
| Clone.SuccessMessage | webklonlama.py:75 | line 75's message; it never passes the loop's `startswith("Hata")` test, although main's `in` test can find `Hata` in it (SuccessMessageContainsHata) |
| Clone.CloneWebsite | webklonlama.py:36-80 | urlparse's ValueError and an empty netloc raise, leaving page and disk unchanged; otherwise the three folders exist; a page fetch error returns `HTTP Hatası: ...` and touches nothing else; otherwise the page is rewritten and the assets are saved; then a failing open returns `Beklenmeyen hata: ...` and leaves `index.html` as it was, a write or close failing after the open returns `Beklenmeyen hata: ...` and leaves `index.html` truncated (`PartialPage`), and a successful write leaves `index.html` holding the rewritten page and returns the success message |
| Clone.Disk.MakeDirs | webklonlama.py:42-47 | os.makedirs adds the folder and leaves the files |
| Clone.Disk.WriteFile | webklonlama.py:72-73 | writing a file replaces its content and leaves the folders |
| CloneProperties.JobShape | webklonlama.py:41-47 | the clone folder of a run that starts is non-empty and `/`-free, and its `css`, `js` and `index.html` paths sit directly under it |
| CloneProperties.JobShapeOf | webklonlama.py:41-47 | for a parsed URL whose netloc has no delimiter and gives a non-empty folder: the folder is `/`-free and `css`, `js` and `index.html` sit directly under it |
| CloneProperties.NoSlashInFolder | webklonlama.py:41 | a folder name made from a parsed netloc contains no `/` |
| CloneProperties.CandidatePath | webklonlama.py:60-62 | a candidate's asset is saved at `folder/css/<name>` or `folder/js/<name>`; that path starts with `Hata` exactly when the folder does; and the rewritten reference is `css/<name>` or `js/<name>` |
| CloneProperties.CandidateErrorIff | webklonlama.py:61 | the saved path of a successful download starts with `Hata` exactly when the clone folder's name does |
| CloneProperties.CandidateReference | webklonlama.py:62 | the reference written back is the class's sub-folder, `/`, and the basename of the resolved URL |
| CloneProperties.AssetPath | webklonlama.py:60 | the local file of a candidate is `folder/<sub-folder>/<basename>`, and its basename is the URL's |
| CloneProperties.RewriteTouchesOnlyTarget | webklonlama.py:56-68 | the loop keeps every element's name and set of attributes, leaves non-candidates unchanged, and changes no attribute but the candidate's `href` or `src` |
| CloneProperties.FailureKeepsElement | webklonlama.py:61-68 | an element whose download raised is left as it was |
| CloneProperties.RewrittenCharacterised | webklonlama.py:56-68 | under a `/`-free clone folder, a candidate is left as it was exactly when its download failed or the folder starts with `Hata`; otherwise its attribute becomes `css/` or `js/` followed by the basename of the resolved URL |
| CloneProperties.SavedFileOfCandidate | webklonlama.py:60 | a candidate whose file was opened leaves `folder/<sub-folder>/<basename>` holding the chunks received |
| CloneProperties.HataFolderFreezesPage | webklonlama.py:61-68 | with a clone folder named `Hata...`, no element is ever rewritten, although the opened files are still saved |
| CloneProperties.HataHostFreezesPage | webklonlama.py:41-68 | a run whose host starts with `Hata` starts, its folder starts with `Hata`, and it never rewrites an element |
| CloneProperties.HatayParse | webklonlama.py:38 | `https://Hatay.gov.tr/` parses to host `Hatay.gov.tr` |
| CloneProperties.HataPrefix | webklonlama.py:61 | a name starting with `H`, `a`, `t`, `a`, such as the host `Hatay.gov.tr`, passes the `Hata` test |
| CloneProperties.SuccessMessageContainsHata | webklonlama.py:75 | the message of a completed run into a folder starting with `Hata` holds `Hata` at index 32, so main's test `"Hata" in result` takes it for an error |
| CloneProperties.FolderNameIs | webklonlama.py:41 | a string with the pointwise description of the renaming is the folder name |
| CloneProperties.ExampleJob | webklonlama.py:38-41 | `https://example.test/` has base URL `https://example.test` and folder `example_test` |
| CloneProperties.ExampleParse | webklonlama.py:38 | `https://example.test/` parses to scheme `https`, host `example.test` and rest `/` |
| CloneProperties.ExampleFolder | webklonlama.py:41 | the folder of `example.test` is `example_test` |
| CloneProperties.ExampleBasenames | webklonlama.py:11 | `.../styles/main.css` and `.../app.js` are saved as `main.css` and `app.js` |
| CloneProperties.LastStoreWins | webklonlama.py:15 | after a sequence of saves, a path holds the bytes of the last save to it |
| CloneProperties.UnstoredPathKept | webklonlama.py:15 | after a sequence of saves, a path that none of them writes is unchanged |
| CloneProperties.LastSaveWins | webklonlama.py:56-68 | after the loop, a path holds the bytes of the last element whose download saved to it |
| CloneProperties.UnsavedPathKept | webklonlama.py:56-68 | after the loop, a path no download saves to is present, with its old content, exactly when it was before |
| CloneProperties.SharedBasenameOverwrites | webklonlama.py:56-62 | two stylesheets whose URLs share a basename are both pointed at the same reference and file, and the file holds only the later download |

## Left out

- The curses interface (webklonlama.py:27-29, 82-163) is not modelled: header, footers, prompts, colours and drawing. Frames record what would be drawn.
- `main`'s test `"Hata" in result` (webklonlama.py:150) is not modelled. It only picks a colour. SuccessMessageContainsHata shows it would colour the success message of a folder such as `Hatay_gov_tr` as an error.
- `time.sleep` (webklonlama.py:30, 143) is not modelled. It has no logic.
- The HTTP library (`requests.get`, `raise_for_status`, the content-length header, webklonlama.py:12-14, 50-51) is replaced by the `Response` oracle and the optional page-fetch error.
- The oracle decides whether opening the local file fails. In particular, the model does not derive that failure from the path, for example a URL ending in `/` whose basename is empty.
- HTML parsing and serialisation by BeautifulSoup (webklonlama.py:53, 73) are replaced by the page as an array of elements. `find_all(['link', 'script'])` is modelled as a loop over all elements in which only `link` and `script` elements can be candidates.
- `urljoin` (webklonlama.py:59, 65) is the uninterpreted parameter `resolve`, and nothing is proved about it.
- Exceptions raised inside the loop outside `download_file` are not modelled, for example a ValueError from `urljoin` that would end in `Beklenmeyen hata`.
- A curses error while drawing a frame inside `download_file` is not modelled; in the source it would turn into a `Hata` result.
- `os.makedirs` failures other than the empty path are not modelled. Their only effect would be an exception.
- A failing `f.write` or close of an asset file (webklonlama.py:15, 22) is not modelled apart from a failure at a chunk boundary, which `interruption` can stand for; a write that breaks off inside a chunk leaves a file the model cannot represent.
- The read size 8192 (webklonlama.py:19) is not modelled: the oracle's chunks may have any length.
- Clone.CloneWebsite: a write or close that fails after `open(..., 'w')` leaves `index.html` as `PartialPage`; which prefix of the serialised page reached the file is not modelled, because serialisation is left out.
- Progress.Percent: computes the truncated quotient exactly. The floating-point expression at webklonlama.py:24 can come out one closer to zero; for example, 29 bytes of 100 show 28%, and 29 bytes against a header of -100 show -28% where the model gives -29.
- Urls.Parse: models urlparse only as far as the cloner uses it:
  - the scheme must start with a letter, as in Python 3.9.16, 3.10.9, 3.11.1 and later; earlier 3.9 and 3.10 releases take `1a://h/` to have scheme `1a` and host `h`, where the model finds no scheme and no host;
  - urlsplit's removal of leading C0 control and space characters, and of tab, CR and LF anywhere in the URL, is not modelled;
  - the characters inside IPv6 brackets are not validated;
  - other netloc checks are not modelled;
  - `;params` are not split off;
  - the port heuristic of Python versions before 3.9 is not modelled.
- The exact texts of exceptions are kept only where the source builds them (`Hata: `, `HTTP Hatası: `, `Beklenmeyen hata: `). The message of a library exception is an opaque string from the oracle.
