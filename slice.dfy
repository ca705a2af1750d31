/** The slice locator and image cache of `src/h5slice.rs`. A request for
    frames of a dataset is an `H5URI`: the archive file, the dataset's path
    inside it, a query (one index, a half-open range, or a start and a
    count) and the element type. Its text form is what goes over the wire.
    The cache maps single-index locators to decoded images; a miss asks the
    server for a whole batch starting at the missing index and fills in
    every frame of it that decodes.

    The network round trip (`download`) and the frame decoder
    (`deserialize`) are parameters: `download` is any function of the wire
    text, and `decode` any function of the payload, the resolution and the
    frame offset. */
module SliceCache {
  import opened Results
  import opened Strings

  datatype Dtype = I4 | F4

  /** `Dtype::to_string`. */
  function DtypeText(d: Dtype): (r: string)
    ensures ParseDtype(r) == Some(d)
    ensures '\t' !in r && ':' !in r
  {
    match d
    case I4 => "i4"
    case F4 => "f4"
  }

  /** The reading of a dtype text, the inverse of `DtypeText`. */
  function ParseDtype(s: string): (r: Option<Dtype>)
  {
    if s == "i4" then Some(I4) else if s == "f4" then Some(F4) else None
  }

  lemma DtypeRoundTrip(d: Dtype, s: string)
    ensures ParseDtype(s) == Some(d) <==> s == DtypeText(d)
  {
  }

  datatype Query =
    | One(index: nat)
    | Range(lo: nat, hi: nat)
    | Batch(first: nat, count: nat)

  /** `Query::to_string`: a single index, or "lo:hi" with an exclusive end;
      a batch is sent as the range it covers. */
  function QueryText(q: Query): (r: string)
    ensures '\t' !in r
    ensures q.One? <==> ':' !in r
  {
    match q
    case One(i) => Decimal(i)
    case Range(a, b) => Decimal(a) + ":" + Decimal(b)
    case Batch(i, n) => Decimal(i) + ":" + Decimal(i + n)
  }

  /** A batch is the range of the same frames. */
  function Canonical(q: Query): Query
  {
    match q
    case Batch(i, n) => Range(i, i + n)
    case _ => q
  }

  /** Every number the text of `q` carries fits in a `usize`. */
  predicate Fits(q: Query)
  {
    match q
    case One(i) => i <= UsizeMax
    case Range(a, b) => a <= UsizeMax && b <= UsizeMax
    case Batch(i, n) => i + n <= UsizeMax
  }

  /** The reading of a query text: one number, or two separated by ':'. */
  function ParseQuery(s: string): (r: Option<Query>)
  {
    var parts := Split(s, ":");
    if |parts| == 1 && ParseUsize(parts[0]).Some? then Some(One(ParseUsize(parts[0]).value))
    else if |parts| == 2 && ParseUsize(parts[0]).Some? && ParseUsize(parts[1]).Some? then
      Some(Range(ParseUsize(parts[0]).value, ParseUsize(parts[1]).value))
    else None
  }

  lemma DigitsLack(s: string, c: char)
    requires AllDigits(s) && !IsDigit(c)
    ensures c !in s
  {
  }

  /** The text of a query reads back as the query, with a batch read as the
      range it covers. */
  lemma QueryRoundTrip(q: Query)
    requires Fits(q)
    ensures ParseQuery(QueryText(q)) == Some(Canonical(q))
    ensures '\t' !in QueryText(q)
  {
    match q
    case One(i) =>
      DigitsLack(Decimal(i), ':');
      DigitsLack(Decimal(i), '\t');
      SplitJoin([Decimal(i)], ":");
    case Range(a, b) =>
      TwoNumbers(a, b);
    case Batch(i, n) =>
      TwoNumbers(i, i + n);
  }

  lemma TwoNumbers(a: nat, b: nat)
    requires a <= UsizeMax && b <= UsizeMax
    ensures ParseQuery(Decimal(a) + ":" + Decimal(b)) == Some(Range(a, b))
    ensures '\t' !in Decimal(a) + ":" + Decimal(b)
  {
    var parts := [Decimal(a), Decimal(b)];
    DigitsLack(Decimal(a), ':');
    DigitsLack(Decimal(b), ':');
    DigitsLack(Decimal(a), '\t');
    DigitsLack(Decimal(b), '\t');
    assert parts[1..] == [Decimal(b)];
    assert Join(parts, ":") == Decimal(a) + ":" + Decimal(b);
    SplitJoin(parts, ":");
  }

  /** `H5URI`: the archive file, the dataset path, the query and the
      element type. */
  datatype Uri = Uri(path: string, h5path: string, query: Query, dtype: Dtype)

  /** `H5URI::to_string`: the four fields joined by tabs. */
  function UriText(u: Uri): (r: string)
    ensures Sendable(u) ==> Split(r, "\t") == [u.path, u.h5path, QueryText(u.query), DtypeText(u.dtype)]
  {
    var fields := [u.path, u.h5path, QueryText(u.query), DtypeText(u.dtype)];
    if Sendable(u) then
      SplitJoin(fields, "\t");
      Join(fields, "\t")
    else Join(fields, "\t")
  }

  /** The reading of a wire text: four tab-separated fields. */
  function ParseUri(s: string): (r: Option<Uri>)
  {
    var parts := Split(s, "\t");
    if |parts| == 4 && ParseQuery(parts[2]).Some? && ParseDtype(parts[3]).Some? then
      Some(Uri(parts[0], parts[1], ParseQuery(parts[2]).value, ParseDtype(parts[3]).value))
    else None
  }

  /** A locator whose text can be read back: its paths hold no tab and its
      numbers fit in a `usize`. */
  predicate Sendable(u: Uri)
  {
    '\t' !in u.path && '\t' !in u.h5path && Fits(u.query)
  }

  /** The wire text of a sendable locator reads back as the locator, with
      a batch read as the range it covers. */
  lemma UriRoundTrip(u: Uri)
    requires Sendable(u)
    ensures ParseUri(UriText(u)) == Some(u.(query := Canonical(u.query)))
  {
    var parts := [u.path, u.h5path, QueryText(u.query), DtypeText(u.dtype)];
    QueryRoundTrip(u.query);
    assert '\t' !in DtypeText(u.dtype);
    SplitJoin(parts, "\t");
  }

  /** Two sendable locators go over the wire as the same text exactly when
      they ask for the same frames: they differ at most in a batch standing
      for the range it covers. */
  lemma WireTextIdentifies(u: Uri, v: Uri)
    requires Sendable(u) && Sendable(v)
    ensures UriText(u) == UriText(v) <==>
      u.(query := Canonical(u.query)) == v.(query := Canonical(v.query))
  {
    UriRoundTrip(u);
    UriRoundTrip(v);
    assert QueryText(Canonical(u.query)) == QueryText(u.query);
    assert QueryText(Canonical(v.query)) == QueryText(v.query);
    assert UriText(u) == UriText(u.(query := Canonical(u.query)));
    assert UriText(v) == UriText(v.(query := Canonical(v.query)));
  }

  type Bytes = seq<bv8>

  /** A decoded RGBA texture. */
  datatype Image = Image(width: nat, height: nat, rgba: Bytes)

  /** `deserialize(buffer, resolution, offset)`: frame `offset` of a
      payload at a resolution, or nothing. */
  type Decoder = (Bytes, (nat, nat), nat) -> Option<Image>

  /** `download(uri)`: the payload the server answers to a wire text, or
      nothing when the connection or the decompression fails. */
  type Downloader = string -> Option<Bytes>

  /** The key the loop in `prefetch` writes for frame `i` of a request. */
  function Single(u: Uri, i: nat): Uri { u.(query := One(i)) }

  /** `key` is one of the frames `start` .. `start + n - 1` of the request
      `u`, and that frame decodes. */
  predicate Filled(u: Uri, bytes: Bytes, res: (nat, nat), decode: Decoder, start: nat, n: nat, key: Uri)
  {
    && key.query.One? && key == Single(u, key.query.index)
    && start <= key.query.index < start + n
    && decode(bytes, res, key.query.index - start).Some?
  }

  /** The buffer after the loop over frames 0 .. n-1 of a payload: frame
      `k`, when it decodes, is stored under the single index `start + k`;
      every other entry is left as it was. */
  function FillFrames(buf: map<Uri, Image>, u: Uri, bytes: Bytes, res: (nat, nat), decode: Decoder, start: nat, n: nat)
    : (r: map<Uri, Image>)
    ensures forall key :: key in r <==> key in buf || Filled(u, bytes, res, decode, start, n, key)
    ensures forall key :: key in r ==>
      r[key] == if Filled(u, bytes, res, decode, start, n, key)
                then decode(bytes, res, key.query.index - start).value else buf[key]
    decreases n
  {
    if n == 0 then buf
    else
      var b := FillFrames(buf, u, bytes, res, decode, start, n - 1);
      match decode(bytes, res, n - 1)
      case None => b
      case Some(im) => b[Single(u, start + n - 1) := im]
  }

  /** The number of frames in the range `lo..hi`, empty when `hi < lo`. */
  function RangeLength(lo: nat, hi: nat): nat { if lo <= hi then hi - lo else 0 }

  /** `H5Cache::prefetch` on a buffer: nothing when the download fails; a
      single index stores frame 0 under the locator itself; a batch and a
      range store each frame that decodes under its own single index. Only
      the query of the locator changes between request and keys. */
  function Prefetched(buf: map<Uri, Image>, uri: Uri, res: (nat, nat), download: Downloader, decode: Decoder)
    : (r: map<Uri, Image>)
    ensures download(UriText(uri)).None? ==> r == buf
    ensures buf.Keys <= r.Keys
    ensures forall key :: key in r && key !in buf ==>
      key.query.One? && key == Single(uri, key.query.index)
  {
    match download(UriText(uri))
    case None => buf
    case Some(bytes) =>
      match uri.query
      case One(_) =>
        (match decode(bytes, res, 0)
         case None => buf
         case Some(im) => buf[uri := im])
      case Batch(start, n) => FillFrames(buf, uri, bytes, res, decode, start, n)
      case Range(lo, hi) => FillFrames(buf, uri, bytes, res, decode, lo, RangeLength(lo, hi))
  }

  /** A batch and the range it covers fill the same entries: both go over
      the wire as the same text and both store frame `k` under `start + k`. */
  lemma {:induction false} BatchIsRange(buf: map<Uri, Image>, u: Uri, i: nat, n: nat,
                                        res: (nat, nat), download: Downloader, decode: Decoder)
    ensures Prefetched(buf, u.(query := Batch(i, n)), res, download, decode)
         == Prefetched(buf, u.(query := Range(i, i + n)), res, download, decode)
  {
    var b := u.(query := Batch(i, n));
    var r := u.(query := Range(i, i + n));
    assert UriText(b) == UriText(r);
    assert RangeLength(i, i + n) == n;
    match download(UriText(b))
    case None =>
    case Some(bytes) =>
      FramesOnlyUsePathFields(buf, b, r, bytes, res, decode, i, n);
  }

  /** The frames a request fills depend on its query only through the
      start and the count. */
  lemma FramesOnlyUsePathFields(buf: map<Uri, Image>, u: Uri, v: Uri, bytes: Bytes,
                                res: (nat, nat), decode: Decoder, start: nat, n: nat)
    requires u.path == v.path && u.h5path == v.h5path && u.dtype == v.dtype
    ensures FillFrames(buf, u, bytes, res, decode, start, n) == FillFrames(buf, v, bytes, res, decode, start, n)
  {
    var x := FillFrames(buf, u, bytes, res, decode, start, n);
    var y := FillFrames(buf, v, bytes, res, decode, start, n);
    forall key ensures Filled(u, bytes, res, decode, start, n, key) <==> Filled(v, bytes, res, decode, start, n, key) {
      if key.query.One? {
        assert Single(u, key.query.index) == Single(v, key.query.index);
      }
    }
    assert x.Keys == y.Keys;
  }

  /** `H5Cache::auto_prefetch_uri`: a single index becomes a batch of
      `hint` frames starting at it; any other query is left alone. It reads
      nothing of the cache but `hint`. */
  function AutoPrefetchUri(u: Uri, hint: nat): (r: Uri)
    ensures r.path == u.path && r.h5path == u.h5path && r.dtype == u.dtype
    ensures u.query.One? ==> r.query == Batch(u.query.index, hint)
    ensures !u.query.One? ==> r == u
  {
    match u.query
    case One(i) => u.(query := Batch(i, hint))
    case _ => u
  }

  datatype CacheError = KeyNotFilled  // the `unwrap` in `fetch_one` panics

  /** What `request` and `fetch_one` return: `None` for a query that is not
      a single index, the image, or the panic. */
  type Answer = Result<Option<Image>, CacheError>

  /** `H5Cache::fetch_one` on a buffer: the answer and the new buffer. */
  function FetchOneSpec(buf: map<Uri, Image>, hint: nat, uri: Uri, res: (nat, nat),
                        download: Downloader, decode: Decoder)
    : (o: (Answer, map<Uri, Image>))
    ensures !uri.query.One? ==> o == (Ok(None), buf)
    ensures o.0.Ok? && o.0.value.Some? ==> uri in o.1 && o.1[uri] == o.0.value.value
    ensures uri.query.One? ==> (o.0.Ok? <==> uri in o.1)
  {
    if !uri.query.One? then (Ok(None), buf)
    else
      var b := Prefetched(buf, AutoPrefetchUri(uri, hint), res, download, decode);
      (if uri in b then Ok(Some(b[uri])) else Err(KeyNotFilled), b)
  }

  /** `H5Cache::request` on a buffer: a cached single index is answered
      from the buffer without a download; a missing one is fetched. */
  function RequestSpec(buf: map<Uri, Image>, hint: nat, uri: Uri, res: (nat, nat),
                       download: Downloader, decode: Decoder)
    : (o: (Answer, map<Uri, Image>))
    ensures !uri.query.One? ==> o == (Ok(None), buf)
    ensures uri.query.One? && uri in buf ==> o == (Ok(Some(buf[uri])), buf)
    ensures o.0.Ok? && o.0.value.Some? ==> uri in o.1 && o.1[uri] == o.0.value.value
  {
    if !uri.query.One? then (Ok(None), buf)
    else if uri in buf then (Ok(Some(buf[uri])), buf)
    else FetchOneSpec(buf, hint, uri, res, download, decode)
  }

  /** `fetch_one` succeeds exactly when the key was already cached or the
      batch download succeeds and its frame 0, the requested one, decodes;
      a fresh image is that frame. With a hint of zero the batch is empty
      and only a cached key can be answered. */
  lemma FetchOneSucceedsIff(buf: map<Uri, Image>, hint: nat, uri: Uri, res: (nat, nat),
                            download: Downloader, decode: Decoder)
    requires uri.query.One?
    ensures var batch := AutoPrefetchUri(uri, hint);
      var payload := download(UriText(batch));
      var o := FetchOneSpec(buf, hint, uri, res, download, decode);
      && (o.0.Ok? <==> uri in buf || (hint >= 1 && payload.Some? && decode(payload.value, res, 0).Some?))
      && (uri !in buf && o.0.Ok? ==> o.0.value == Some(decode(payload.value, res, 0).value))
  {
    var batch := AutoPrefetchUri(uri, hint);
    var i := uri.query.index;
    assert Single(batch, i) == uri;
    match download(UriText(batch))
    case None =>
    case Some(bytes) =>
      var b := FillFrames(buf, batch, bytes, res, decode, i, hint);
      assert Filled(batch, bytes, res, decode, i, hint, uri) <==>
        hint >= 1 && decode(bytes, res, 0).Some?;
  }

  /** Asking again for an image just answered gives the same image, leaves
      the buffer as it is and downloads nothing. */
  lemma RequestIdempotent(buf: map<Uri, Image>, hint: nat, uri: Uri, res: (nat, nat),
                          download: Downloader, decode: Decoder)
    requires var o := RequestSpec(buf, hint, uri, res, download, decode); o.0.Ok? && o.0.value.Some?
    ensures var o := RequestSpec(buf, hint, uri, res, download, decode);
      RequestSpec(o.1, hint, uri, res, download, decode) == o
  {
  }

  /** Every key in the cache is a single index: `prefetch` stores only
      single indices, whatever the query of the request. */
  predicate SingleKeys(buf: map<Uri, Image>) { forall key :: key in buf ==> key.query.One? }

  lemma RequestKeepsSingleKeys(buf: map<Uri, Image>, hint: nat, uri: Uri, res: (nat, nat),
                               download: Downloader, decode: Decoder)
    requires SingleKeys(buf)
    ensures SingleKeys(RequestSpec(buf, hint, uri, res, download, decode).1)
    ensures buf.Keys <= RequestSpec(buf, hint, uri, res, download, decode).1.Keys
  {
  }

  /** `H5Cache`: the buffer of decoded frames keyed by single-index
      locators, and the batch size used on a miss. `sent` records the wire
      texts of the requests made so far. */
  class Cache {
    var buffer: map<Uri, Image>
    var hint: nat
    ghost var sent: seq<string>

    /** The invariant callers rely on: every key is a single index
        (`SingleKeys`). Each method keeps it, as `RequestKeepsSingleKeys`
        shows for `RequestSpec`. */
    ghost predicate Valid()
      reads this
    {
      SingleKeys(buffer)
    }

    /** `H5Cache::new`: empty, with a batch size of 32. */
    constructor ()
      ensures Valid() && buffer == map[] && hint == 32 && sent == []
    {
      buffer := map[];
      hint := 32;
      sent := [];
    }

    /** The loop of `prefetch` over the frames of a batch or a range. */
    method FillFrom(uri: Uri, bytes: Bytes, res: (nat, nat), decode: Decoder, start: nat, n: nat)
      modifies this`buffer
      ensures buffer == FillFrames(old(buffer), uri, bytes, res, decode, start, n)
    {
      ghost var initial := buffer;
      var uriOne := uri;
      var offset := 0;
      while offset < n
        invariant offset <= n
        invariant uriOne == uri.(query := uriOne.query)
        invariant buffer == FillFrames(initial, uri, bytes, res, decode, start, offset)
      {
        var im := decode(bytes, res, offset);
        if im.Some? {
          uriOne := uriOne.(query := One(start + offset));
          assert uriOne == Single(uri, start + offset);
          buffer := buffer[uriOne := im.value];
        }
        offset := offset + 1;
      }
    }

    /** `H5Cache::prefetch`. */
    method Prefetch(uri: Uri, res: (nat, nat), download: Downloader, decode: Decoder)
      requires Valid()
      modifies this
      ensures Valid() && hint == old(hint)
      ensures buffer == Prefetched(old(buffer), uri, res, download, decode)
      ensures sent == old(sent) + [UriText(uri)]
    {
      sent := sent + [UriText(uri)];
      var payload := download(UriText(uri));
      if payload.Some? {
        match uri.query {
          case One(_) =>
            var im := decode(payload.value, res, 0);
            if im.Some? {
              buffer := buffer[uri := im.value];
            }
          case Batch(start, n) =>
            FillFrom(uri, payload.value, res, decode, start, n);
          case Range(lo, hi) =>
            FillFrom(uri, payload.value, res, decode, lo, RangeLength(lo, hi));
        }
      }
    }

    /** `H5Cache::fetch_one`: prefetch the batch starting at the index,
      then answer from the buffer. */
    method FetchOne(uri: Uri, res: (nat, nat), download: Downloader, decode: Decoder) returns (r: Answer)
      requires Valid()
      modifies this
      ensures Valid() && hint == old(hint)
      ensures (r, buffer) == FetchOneSpec(old(buffer), old(hint), uri, res, download, decode)
      ensures sent == if uri.query.One? then old(sent) + [UriText(AutoPrefetchUri(uri, old(hint)))] else old(sent)
    {
      match uri.query {
        case One(_) =>
          var batch := AutoPrefetchUri(uri, hint);
          Prefetch(batch, res, download, decode);
          if uri in buffer {
            r := Ok(Some(buffer[uri]));
          } else {
            r := Err(KeyNotFilled);
          }
        case _ =>
          r := Ok(None);
      }
    }

    /** `H5Cache::request`. */
    method Request(uri: Uri, res: (nat, nat), download: Downloader, decode: Decoder) returns (r: Answer)
      requires Valid()
      modifies this
      ensures Valid() && hint == old(hint)
      ensures (r, buffer) == RequestSpec(old(buffer), old(hint), uri, res, download, decode)
      ensures sent == if uri.query.One? && uri !in old(buffer)
                      then old(sent) + [UriText(AutoPrefetchUri(uri, old(hint)))] else old(sent)
    {
      match uri.query {
        case One(_) =>
          if uri in buffer {
            r := Ok(Some(buffer[uri]));
          } else {
            r := FetchOne(uri, res, download, decode);
          }
        case _ =>
          r := Ok(None);
      }
    }
  }
}
