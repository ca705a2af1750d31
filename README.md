# piston-gui archive core, modelled in Dafny

piston-gui browses HDF5 archives. Its core has three parts, and each has a Dafny model here:

- **Archive tree and listing parser** (`src/h5meta.rs`).
  - The tree is groups that own named children, and datasets that carry a shape.
  - Paths are resolved from any node. An absolute path skips its root component only at the group named "/".
  - `H5Group::parse` rebuilds the tree from an `h5ls`-style listing. It keeps a cursor path `spath` and pops it back to the parent of each group line.
  - Classifiers give a dataset's format label and image resolution from its shape.
- **The earlier parser** (`src/h5ls_reader.rs`).
  - It builds groups only, makes a single pop-or-insert step per line, and looks up paths without skipping the root.
- **The slice locator and cache** (`src/h5slice.rs`).
  - `H5URI` names frames of a dataset; its text form is the wire request.
  - `H5Cache` holds decoded frames under single-index locators. A miss asks the server for a batch of `hint` frames and stores every frame of it that decodes.

Modules and files:

| file | module | models |
|---|---|---|
| `results.dfy` | `Results` | `Option` and `Result` |
| `strings.dfy` | `Strings` | `usize::to_string`, `str::parse::<usize>`, `str::split`, `join` |
| `paths.dfy` | `Paths` | `PathBuf::from`, `strip_prefix`, `pop`, `file_name`, `subgroup` |
| `tree.dfy` | `ArchiveTree` | `H5Obj`, `locate`, `locate_group`, `locate_mut`, `to_group(_mut)` |
| `shapes.dfy` | `DatasetShape` | `shape_to_format`, `format`, the three `resolution` functions |
| `listing.dfy` | `Listing`, `ListingExamples` | `H5Group::parse` and worked listings |
| `legacy.dfy` | `LegacyListing`, `LegacyExamples` | the parser of `src/h5ls_reader.rs` |
| `slice.dfy` | `SliceCache` | `Dtype`, `Query`, `H5URI`, `H5Cache` |

How the Rust is represented:

- **Panics become errors.** `expect`, `unwrap` and the `to_group` casts become `Err` values of `LookupError` and `ParseError`.
- **In-place updates become functions.** An insertion through the `&mut` borrow that `locate_mut` returns becomes `ArchiveTree.InsertAt`, which rebuilds the path from the root to the changed group. The borrow checker rules out aliasing into the tree, so nothing is lost by this. `ArchiveTree.InsertAtFrame` states that the rest of the tree is unchanged.
- **Loops stay loops.**
  - Both `parse` functions, and the loop of `prefetch`, are methods with `while` loops.
  - Each is proved equal to a specification function: `Listing.Run`, `LegacyListing.Run` and `SliceCache.FillFrames`.
  - The properties are proved about those functions.
- **The cache is a class.** `H5Cache` becomes the class `SliceCache.Cache` with the fields `buffer` and `hint`, plus a ghost log `sent` of the wire texts requested. Its methods are proved equal to `Prefetched`, `FetchOneSpec` and `RequestSpec`.
- **Small accessors.** `H5Obj::name` is the `name` field of `ArchiveTree.Node`. The `From` impls are its constructors.

Notes on the code:

- A shape token outside `[0-9, ]` makes the brace pattern fail, which gives "Malformed dataset metadata." (`MalformedDataset`). Only tokens like "", "1 2" or numbers beyond `usize` give `MalformedShape`.
- `prefetch` does not bound a batch by the dataset's length.
- `fetch_one` panics (`KeyNotFilled`) when the requested key was not filled.
- `resolution` answers for every rank from 2 up.

## Model

| member | source | states |
|---|---|---|
| `Strings.Decimal` | src/h5slice.rs:42 | `usize::to_string` writes digits only, with a leading zero only for zero, and their value is the number |
| `Strings.ParseUsize` | src/h5meta.rs:85 | `parse::<usize>` returns the value of an all-digit token that fits in 64 bits; it rejects a token with a non-digit after its first character and an all-digit token above `usize::MAX`; a leading '+' before a digit reads as the rest of the token |
| `Strings.DecimalRoundTrip` | src/h5meta.rs:85 | parsing a printed `usize` gives it back |
| `Strings.Split` | src/h5meta.rs:84 | `split` gives at least one piece; joining the pieces with the pattern gives the text back; for a one-character pattern no piece holds it |
| `Strings.SplitPiecesFree` | src/h5meta.rs:84 | no piece of `split` contains the pattern, so every ", " of a shape text separates two tokens |
| `Strings.SplitJoin` | src/h5slice.rs:59 | `join` puts the parts in order between copies of the pattern: splitting its text recovers the parts when none contains the pattern's first character |
| `Paths.FromText` | src/h5meta.rs:56 | `PathBuf::from` gives a well-formed path, absolute exactly when the text starts with '/' |
| `Paths.RenderRoundTrip` | src/h5meta.rs:56 | every well-formed path is what `PathBuf::from` gives for its text |
| `Paths.StripPrefix` | src/h5meta.rs:256 | `strip_prefix` succeeds exactly when the parent is a component-wise prefix, and the child is the parent followed by the result |
| `Paths.Subgroup` | src/h5meta.rs:255-264 | `subgroup` answers only for a child one component longer than the parent and starting with it, and the answer is the text of that last component |
| `Paths.SubgroupIff` | src/h5meta.rs:255-264 | `subgroup(parent, child)` is `Some(n)` exactly when `child` is `parent` followed by the one component `n` |
| `Paths.SubgroupJoin` | src/h5ls_reader.rs:52-61 | the same `subgroup` in the older parser names the component joined onto the parent |
| `Paths.Pop` | src/h5meta.rs:70 | `pop` leaves "/" and the empty path alone and otherwise removes exactly the last component |
| `Paths.FileName` | src/h5meta.rs:93 | `file_name` is the last component when it is a name, and nothing otherwise |
| `ArchiveTree.RootSkip` | src/h5meta.rs:198-203 | an absolute path fails with `AbsoluteFromNonRoot` exactly at a receiver not named "/"; otherwise it loses its root component, and a relative path is kept; a well-formed path leaves only names |
| `ArchiveTree.Locate` | src/h5meta.rs:195-214 | an exhausted path gives the receiver; an absolute path from a node not named "/" fails, and from a node named "/" resolves as its tail; a path that goes on below a dataset fails with `NotAGroup` (the `to_group` cast); a name step gives the child or `NotFound` |
| `ArchiveTree.LocateGroup` | src/h5meta.rs:216-221 | `locate_group` is `Some(g)` exactly when `locate` ends on a group `g`, `None` on a dataset, and fails where `locate` fails |
| `ArchiveTree.LocateMut` | src/h5meta.rs:16-36 | `locate_mut` always ends on a group; an empty path gives the receiver; an absolute path fails from a group not named "/" and resolves as its tail from the group named "/" |
| `ArchiveTree.InsertAt` | src/h5meta.rs:60-65 | `locate_mut(p).children.insert` fails exactly when `locate_mut` does, with its error, and keeps the root a group of the same name |
| `ArchiveTree.LocateMutAgrees` | src/h5meta.rs:16-36 | `locate_mut` finds a group exactly where `locate` does, and fails with `NotAGroup` where `locate` ends on a dataset |
| `ArchiveTree.LocateGroupAgrees` | src/h5meta.rs:216-221 | `locate_group` gives `Some(m)` exactly when `locate_mut` gives `m` |
| `ArchiveTree.LocateAppend` | src/h5meta.rs:204-211 | `locate` of `p` and then the names `q` is `locate` of `p + q`, so a walk through a dataset fails wherever it happens |
| `ArchiveTree.LocateMutAppend` | src/h5meta.rs:27-34 | resolving `p` and then the names `q` is resolving `p + q` |
| `ArchiveTree.LocateMutPrefix` | src/h5meta.rs:27-34 | every ancestor of a reachable group is reachable |
| `ArchiveTree.InsertAtLocates` | src/h5meta.rs:60-65 | after the insert, the group at `p` is the old one with the new child under the key, and nothing else in it changed |
| `ArchiveTree.InsertAtChild` | src/h5meta.rs:60-66 | after inserting a group under a name, it is found at `p` joined with that name |
| `ArchiveTree.InsertAtFrame` | src/h5meta.rs:60-65 | the insert changes nothing else: every path that stops neither on the way to the group at `p` nor below the new entry finds what it found before |
| `DatasetShape.LabelInjective` | src/h5meta.rs:116-131 | the format labels are pairwise distinct |
| `DatasetShape.ShapeToFormat` | src/h5meta.rs:116-132 | each format holds exactly for its ranks: 0 Param, 1 Scalar, 2 Vec, 3 Gray; from rank 4 by the last dimension: 1 Gray, 3 Color, 4 RGBD, else Hyper |
| `DatasetShape.DatasetFormat` | src/h5meta.rs:167-169 | a dataset is Color exactly when rank is at least 4 and it has 3 channels; below rank 4 it is never Color, RGBD or Hyper |
| `DatasetShape.FormatIsChannelCount` | src/h5meta.rs:123-129 | from rank 4 on, the format depends only on the last dimension |
| `DatasetShape.ResolutionOf` | src/h5meta.rs:135-145 | a resolution exists exactly from rank 2; ranks 2-3 read width and height from the last two dimensions, rank 4 and up from the two before the channels |
| `DatasetShape.ResolutionSingleImage` | src/h5meta.rs:148-155 | only ranks 2-3, read as height, width, optional channels |
| `DatasetShape.ResolutionBatchImages` | src/h5meta.rs:158-165 | only ranks 3-4, read as count, height, width, optional channels |
| `DatasetShape.ResolutionIffImageFormat` | src/h5meta.rs:135-145 | a dataset has a resolution exactly when its format is neither Param nor Scalar |
| `DatasetShape.ResolutionRulesAgree` | src/h5meta.rs:135-165 | the general rule agrees with the single-image rule at rank 2 and the batch rule at ranks 3-4; at rank 3 the single-image rule agrees only on a shape n, n, n |
| `Listing.ParseDims` | src/h5meta.rs:84-86 | succeeds exactly when every token parses as a `usize`, giving one dimension per token |
| `Listing.ParseShape` | src/h5meta.rs:78-87 | SCALAR is the empty shape; text outside `[0-9, ]*` is a malformed dataset; a text inside it succeeds exactly when every ", "-separated token parses as a `usize`, giving one dimension per token, and otherwise is a malformed shape |
| `Listing.ShapeRoundTrip` | src/h5meta.rs:81-87 | parsing the printed non-empty shape of a dataset gives the shape back |
| `Listing.EmptyShapeFails` | src/h5meta.rs:84-85 | empty braces are a malformed shape |
| `Listing.Ascend` | src/h5meta.rs:57-73 | the ascend loop stops at an ancestor of the cursor below which the line lies one component deep, or fails with `StructuralViolation` |
| `Listing.AscendFindsParent` | src/h5meta.rs:57-73 | the ascend loop succeeds exactly when the line's parent is the cursor or an ancestor of it, and then stops at that parent |
| `Listing.Step` | src/h5meta.rs:44-103 | unmatched lines and the "/" line change nothing; a dataset line without a brace match fails; a dataset line keeps the cursor; the root stays a group named as before |
| `Listing.Run` | src/h5meta.rs:44-105 | the lines one by one, stopping at the first error; no lines leave the cursor as it was, and the root stays a group of the same name |
| `Listing.ParseListing` | src/h5meta.rs:38-107 | the parse starts from the empty root "/" with the cursor "/", and any tree it builds is a group named "/" |
| `Listing.Parse` | src/h5meta.rs:38-107 | the loop over lines with its inner ascend loop computes `ParseListing`, and any tree it returns is a group named "/" |
| `Listing.GroupLineEffect` | src/h5meta.rs:50-75 | a group line fails exactly when its parent is off the cursor's chain; otherwise the cursor becomes the line's path, an empty group of its name is found there, and it was added to the parent group with nothing else in that group changed |
| `Listing.DatasetLineEffect` | src/h5meta.rs:76-98 | a braced dataset line succeeds exactly when its shape parses and its path ends in a name; it then adds the dataset under the group at the cursor, whatever its own path says, and keeps the cursor |
| `Listing.StepKeepsInv` | src/h5meta.rs:60-97 | each line keeps the cursor on a group of the tree, so the lookups inside `parse` never panic |
| `Listing.RunKeepsInv` | src/h5meta.rs:44-105 | the same holds over any sequence of lines |
| `Listing.ParseOutcome` | src/h5meta.rs:42-106 | a parse yields a group named "/" or fails with a listing error, never a lookup error |
| `ListingExamples.NestedListing` | src/h5meta.rs:38-107 | "/", "/a", "/a/b", "/a/b/c {SCALAR}", "/a/d" give "/a" with children b and d, "c" under "/a/b", and "/a/d" empty |
| `Listing.PlaceDataset` | src/h5meta.rs:92-97 | the dataset line as evidently intended, inserting under the parent its own path names: an unbraced line fails, and the cursor and the root's name are kept |
| `Listing.PlacedDatasetIff` | src/h5meta.rs:92-97 | the intended placement succeeds exactly when the shape parses, the path ends in a name and the group at its parent path exists |
| `Listing.PlacedDatasetFound` | src/h5meta.rs:92-97 | after the intended placement the dataset is found at its own path |
| `Listing.InsertedFoundBelow` | src/h5meta.rs:60-65 | a node inserted under a name at `p`, group or dataset, is found by `locate` at `p` joined with that name |
| `ListingExamples.DatasetUnderCursor` | src/h5meta.rs:92-97 | "/a", "/a/b", "/a/y {SCALAR}" stores `y` under "/a/b", and `locate("/a/y")` then fails with `NotFound("y")` |
| `ListingExamples.GroupBeforeParent` | src/h5meta.rs:57-73 | "/x/y" before "/x" is a `StructuralViolation` |
| `LegacyListing.LocateGroupMut` | src/h5ls_reader.rs:26-36 | an empty path gives the receiver; a missing first component fails with `NotFound`, a dataset there with `NotAGroup`; the result is always a group |
| `LegacyListing.InsertGroupAt` | src/h5ls_reader.rs:82-87 | the insert fails exactly when `locate_group_mut` does, with its error, and keeps the root a group of the same name |
| `LegacyListing.LegacyAgreesOnNames` | src/h5ls_reader.rs:26-36 | on a path of names only, `locate_group_mut` and its insert are exactly `locate_mut` and its insert, so the lemmas about `InsertAt` describe what a successful insert builds |
| `LegacyListing.NoRootSkip` | src/h5ls_reader.rs:27-31 | an absolute path is looked up from its root component "/", which fails unless the group has a child literally named "/" |
| `LegacyListing.Step` | src/h5ls_reader.rs:70-115 | dataset lines, unmatched lines and the "/" line change nothing; the root stays a group named as before |
| `LegacyListing.Run` | src/h5ls_reader.rs:70-117 | the lines one by one, stopping at the first failed lookup; no lines leave the cursor as it was, and the root stays a group of the same name |
| `LegacyListing.AsWrittenNeverInserts` | src/h5ls_reader.rs:63-119 | as written, the parser panics at the first group line directly below the root, and until then keeps the empty root and the cursor "/" |
| `LegacyListing.Parse` | src/h5ls_reader.rs:63-119 | the loop over lines computes `LegacyListing.Run`: the same tree, or the same failed lookup |
| `LegacyListing.FixedStep` | src/h5ls_reader.rs:76-109 | with the root-skipping lookup, non-group lines and "/" still change nothing |
| `LegacyListing.FixedStepKeepsInv` | src/h5ls_reader.rs:80-92 | with the root-skipping lookup no step fails, and a group one level below the cursor is found at the new cursor |
| `LegacyListing.FixedRunNeverFails` | src/h5ls_reader.rs:70-117 | with the root-skipping lookup no listing makes the parser panic |
| `LegacyExamples.FirstGroupPanics` | src/h5ls_reader.rs:80-88 | the listing "/a Group" panics in `locate_group_mut` with `NotFound("/")` |
| `LegacyExamples.SiblingDropped` | src/h5ls_reader.rs:90-92 | even with the lookup fixed, "/a" then "/b" only pops the cursor, and "b" is never added |
| `LegacyExamples.SiblingKept` | src/h5meta.rs:57-73 | the later parser adds both "a" and "b" under the root |
| `SliceCache.DtypeText` | src/h5slice.rs:20-29 | the text of a dtype reads back as it, and holds no tab or ':' |
| `SliceCache.QueryText` | src/h5slice.rs:39-47 | the text of a query holds no tab, and holds a ':' exactly when it is not a single index |
| `SliceCache.UriText` | src/h5slice.rs:57-61 | for tab-free paths, the wire text splits at its tabs into exactly the two paths, the query text and the dtype text, in that order |
| `SliceCache.DtypeRoundTrip` | src/h5slice.rs:20-29 | "i4" and "f4" are the texts of `I4` and `F4` and of nothing else |
| `SliceCache.QueryRoundTrip` | src/h5slice.rs:39-47 | the query text reads back as the query, a batch `(i, n)` as the range `i:i+n`, and holds no tab |
| `SliceCache.UriRoundTrip` | src/h5slice.rs:57-61 | the tab-joined wire text of a locator with tab-free paths reads back as its four fields |
| `SliceCache.WireTextIdentifies` | src/h5slice.rs:39-61 | two such locators have the same wire text exactly when they are equal once each batch is written as its range |
| `SliceCache.FillFrames` | src/h5slice.rs:122-139 | after the frame loop, exactly the old keys and the single indices `start + k` whose frame `k` decodes are present, each new one holding frame `k` and every other entry unchanged |
| `SliceCache.Prefetched` | src/h5slice.rs:114-142 | a failed download changes nothing; no entry is removed; every new key is a single index that differs from the request in its query only |
| `SliceCache.BatchIsRange` | src/h5slice.rs:122-139 | prefetching the batch `(i, n)` and the range `i:i+n` fill the same entries |
| `SliceCache.AutoPrefetchUri` | src/h5slice.rs:144-154 | a single index `i` becomes the batch `(i, hint)`, other queries are unchanged, and the paths and dtype are kept |
| `SliceCache.FetchOneSpec` | src/h5slice.rs:156-165 | a query that is not a single index answers `None` and changes nothing; a single index answers the image stored under it after the batch prefetch, or panics when it is missing |
| `SliceCache.RequestSpec` | src/h5slice.rs:73-84 | a query that is not a single index answers `None`; a cached single index answers the stored image and changes nothing; a returned image is the one stored under the key |
| `SliceCache.FetchOneSucceedsIff` | src/h5slice.rs:156-165 | `fetch_one` succeeds exactly when the key was cached, or the hint is positive and the batch downloads with its frame 0 decoding; a new image is that frame |
| `SliceCache.RequestIdempotent` | src/h5slice.rs:73-84 | asking again for an image just answered gives the same answer and the same buffer |
| `SliceCache.RequestKeepsSingleKeys` | src/h5slice.rs:114-142 | requests only add keys, and every key stays a single index |
| `SliceCache.Cache.constructor` | src/h5slice.rs:69-71 | a new cache is empty with a hint of 32 |
| `SliceCache.Cache.FillFrom` | src/h5slice.rs:122-139 | the loop over the frames, rewriting the query of a locator copy, leaves the buffer as `FillFrames` describes |
| `SliceCache.Cache.Prefetch` | src/h5slice.rs:114-142 | sends the request's wire text once and leaves the buffer as `Prefetched` describes, with only single-index keys |
| `SliceCache.Cache.FetchOne` | src/h5slice.rs:156-165 | sends the batch request for a single index and answers as `FetchOneSpec` describes |
| `SliceCache.Cache.Request` | src/h5slice.rs:73-84 | answers as `RequestSpec` describes, and sends nothing on a hit or for a query that is not a single index |

## Left out

- Reading the listing file and matching the two regular expressions are not modelled. Each line arrives already classified as `Listing.Line`, with the text between the braces when the whole dataset pattern matches. I/O errors from `File::open` and `lines()` are not modelled.
- `Paths.FromText`: the "." and ".." components, and Rust's removal of interior "." components, are not modelled; every non-empty segment is a name. Non-UTF-8 names (`to_str().unwrap()`) cannot arise in a Dafny string.
- The key order of the `BTreeMap` children is not modelled; a Dafny `map` is unordered. The `HashMap` capacity of 60 is not modelled either.
- `Listing.Ascend` fails with `StructuralViolation` where the Rust loop at `src/h5meta.rs:57-73` pops "/" forever, because a nonterminating loop cannot be a total function. This is a deliberate deviation.
- Debug output (`println!` under `debug_assertions`) and `Display for Resolution` are not modelled.
- The unreachable `_ => ""` arm of `shape_to_format` has no counterpart; `Label` gives each format's text.
- `deserialize` is the parameter `decode`. Its reinterpretation of the payload as `f32`, the `+100.0` bias, the saturating `as u8` cast and the frame offset `k * w * h * 3` samples are not modelled.
- `download` is the parameter `download`, a function of the wire text. The TCP connection and gzip decompression are not modelled. The model assumes that a text answered once is answered the same way again.
- `SliceCache.QueryText`, `SliceCache.FillFrames`, `SliceCache.Prefetched`: `usize` overflow is not modelled. `idx + len` of a batch (src/h5slice.rs:45 and 124) panics in debug builds and wraps in release builds. `fetch_one` builds `Batch(i, hint)` for any `i`. Indices are unbounded `nat` here, so `FillFrames` and `Prefetched` can produce keys `One(start + k)` above `usize::MAX`, where the Rust code panics or wraps. The round-trip lemmas require `Fits`, that is, that the sum fits.
- `SliceCache.Cache.Request` and `SliceCache.Cache.FetchOne` return the image by value. The Rust code returns a `&mut` borrow into the buffer, through which a caller could change the cached image; that is not modelled.
- `LegacyListing.Parse` returns the tree it built, or the failed lookup. The Rust `parse` discards the tree and returns `Ok(())`, or panics. The `H5Dataset` type of `src/h5ls_reader.rs`, which has only a name, is never built by that parser.

## Findings

| source | as written | input that shows it | evidently intended | confidence | as-written member | corrected member |
|---|---|---|---|---|---|---|
| src/h5ls_reader.rs:26-31 | `locate_group_mut` looks up every component of the cursor, including the root "/", among the root's children | the listing line "/a Group": `subgroup("/", "/a")` is "a", and the lookup of "/" panics with "Group doesn't exist." | skip the root component when starting from the root group, as `locate_mut` in `src/h5meta.rs` does | high; not executed | `LegacyExamples.FirstGroupPanics` | `LegacyListing.FixedRunNeverFails` |
| src/h5ls_reader.rs:90-92 | a group line whose parent is an ancestor of the cursor pops the cursor once and is then dropped | "/a Group" then "/b Group": "/b" is never added | keep popping until the parent is found, then insert, as the loop in `src/h5meta.rs:57-73` does | medium; not executed | `LegacyExamples.SiblingDropped` | `Listing.GroupLineEffect` |
| src/h5meta.rs:92-97 | a dataset is inserted under the group at the cursor, whatever its own path names as parent | "/a Group", "/a/b Group", "/a/y Dataset {SCALAR}", the depth-first order for a group holding a subgroup `b` and a dataset `y`: `y` lands under "/a/b" and "/a/y" does not resolve | insert under the parent of the dataset's own path, so that it is found at that path | medium; not executed | `ListingExamples.DatasetUnderCursor` | `Listing.PlacedDatasetFound` |
