/**
 * The HTML block's mobile packaging: the rewrite of `/static/<name>` links to
 * `assets/<name>`, which saves each linked asset into the package directory as
 * it goes; the "modified since publish" check that gates the packaging; and
 * the package's storage path and URL.
 *
 * Storage is a map from paths to contents, the course's asset store a map from
 * link paths to contents, and file creation times are whole numbers.
 */
module HtmlBlock {
  import opened Common

  const FileName := "content_html.zip"
  const IndexPage := "index.html"
  const StaticPrefix := "/static/"
  const AssetsPrefix := "assets/"

  /** The character class `[\w\+@\-_\.]` of the link pattern, over ASCII. */
  predicate IsStaticChar(c: char) {
    IsAsciiAlnum(c) || c in StaticPunctuation
  }

  const StaticPunctuation := "_+@-."

  predicate IsAsciiAlnum(c: char) {
    'a' <= c <= 'z' || 'A' <= c <= 'Z' || '0' <= c <= '9'
  }

  /** The greedy run of link characters starting at `i`. */
  function RunLength(s: string, i: nat): (n: nat)
    requires i <= |s|
    ensures i + n <= |s|
    ensures i + n == |s| || !IsStaticChar(s[i + n])
    decreases |s| - i
  {
    if i < |s| && IsStaticChar(s[i]) then 1 + RunLength(s, i + 1) else 0
  }

  /** The run consists of link characters only. */
  lemma {:induction false} RunLengthChars(s: string, i: nat)
    requires i <= |s|
    ensures forall k :: i <= k < i + RunLength(s, i) ==> IsStaticChar(s[k])
    decreases |s| - i
  {
    if i < |s| && IsStaticChar(s[i]) {
      RunLengthChars(s, i + 1);
    }
  }

  /** `/static/` starts at position `i` of `s`, compared character by character. */
  predicate HasStaticPrefixAt(s: string, i: nat) {
    && i + 8 <= |s|
    && s[i] == '/' && s[i + 1] == 's' && s[i + 2] == 't' && s[i + 3] == 'a'
    && s[i + 4] == 't' && s[i + 5] == 'i' && s[i + 6] == 'c' && s[i + 7] == '/'
  }

  /** The pattern `/static/[\w\+@\-_\.]+` matches at position `i`. */
  predicate MatchesAt(s: string, i: nat) {
    i + 9 <= |s| && HasStaticPrefixAt(s, i) && IsStaticChar(s[i + 8])
  }

  /** `MatchesAt` is the pattern: the literal prefix, then a link character. */
  lemma MatchesAtIsPattern(s: string, i: nat)
    ensures MatchesAt(s, i) <==> i + 9 <= |s| && s[i..i + 8] == StaticPrefix && IsStaticChar(s[i + 8])
  {
    if i + 9 <= |s| && s[i..i + 8] == StaticPrefix {
      var p := s[i..i + 8];
      assert p[0] == s[i] && p[1] == s[i + 1] && p[2] == s[i + 2] && p[3] == s[i + 3];
      assert p[4] == s[i + 4] && p[5] == s[i + 5] && p[6] == s[i + 6] && p[7] == s[i + 7];
    }
  }

  /** Where a match at `i` ends: after the prefix and the whole greedy run. */
  function MatchEnd(s: string, i: nat): (j: nat)
    requires MatchesAt(s, i)
    ensures i + 9 <= j <= |s|
  {
    i + 8 + RunLength(s, i + 8)
  }

  /** The text as the substitution sees it: single characters it copies and the
      links it replaces, by the name after `/static/`. */
  datatype Piece = Text(c: char) | Link(name: string)

  /** Leftmost, non-overlapping, greedy matching from position `i` to the end. */
  function PiecesFrom(s: string, i: nat): seq<Piece>
    requires i <= |s|
    decreases |s| - i
  {
    if i == |s| then []
    else if MatchesAt(s, i) then [Link(s[i + 8..MatchEnd(s, i)])] + PiecesFrom(s, MatchEnd(s, i))
    else [Text(s[i])] + PiecesFrom(s, i + 1)
  }

  function Pieces(s: string): seq<Piece> {
    PiecesFrom(s, 0)
  }

  /** Every link piece names a non-empty run of link characters. */
  predicate WellFormed(ps: seq<Piece>) {
    forall i :: 0 <= i < |ps| && ps[i].Link? ==>
      ps[i].name != [] && forall k :: 0 <= k < |ps[i].name| ==> IsStaticChar(ps[i].name[k])
  }

  /** The original text of one piece. */
  function PieceSource(p: Piece): string {
    match p
    case Text(c) => [c]
    case Link(name) => StaticPrefix + name
  }

  /** The text of one piece after substitution: a link becomes `assets/<name>`. */
  function PieceRender(p: Piece): string {
    match p
    case Text(c) => [c]
    case Link(name) => AssetsPrefix + name
  }

  function Source(ps: seq<Piece>): string {
    if ps == [] then [] else PieceSource(ps[0]) + Source(ps[1..])
  }

  function Render(ps: seq<Piece>): string {
    if ps == [] then [] else PieceRender(ps[0]) + Render(ps[1..])
  }

  /** One call of `save_asset_file(link, filename)`. */
  datatype AssetSave = AssetSave(link: string, filename: string)

  function PieceSaves(p: Piece): seq<AssetSave> {
    match p
    case Text(_) => []
    case Link(name) => [AssetSave(StaticPrefix + name, name)]
  }

  /** The asset saves the substitution's callback makes, in order. */
  function Saves(ps: seq<Piece>): seq<AssetSave> {
    if ps == [] then [] else PieceSaves(ps[0]) + Saves(ps[1..])
  }

  lemma Assoc<T>(a: seq<T>, b: seq<T>, c: seq<T>)
    ensures a + (b + c) == (a + b) + c
  {
  }

  lemma EmptyConcat<T>(b: seq<T>)
    ensures [] + b == b
  {
  }

  lemma Cons(p: Piece, rest: seq<Piece>)
    ensures Source([p] + rest) == PieceSource(p) + Source(rest)
    ensures Render([p] + rest) == PieceRender(p) + Render(rest)
    ensures Saves([p] + rest) == PieceSaves(p) + Saves(rest)
  {
    assert ([p] + rest)[1..] == rest;
  }

  /** One step of the substitution at position `i`: a match is replaced by
      `assets/<name>` and saved with the matched text; any other character is
      copied. */
  lemma StepAt(s: string, i: nat)
    requires i < |s|
    ensures MatchesAt(s, i) ==>
      var j := MatchEnd(s, i);
      var name := s[i + 8..j];
      && s[i..j] == StaticPrefix + name
      && PiecesFrom(s, i) == [Link(name)] + PiecesFrom(s, j)
    ensures !MatchesAt(s, i) ==> PiecesFrom(s, i) == [Text(s[i])] + PiecesFrom(s, i + 1)
  {
    if MatchesAt(s, i) {
      var j := MatchEnd(s, i);
      MatchesAtIsPattern(s, i);
      assert s[i..j] == s[i..i + 8] + s[i + 8..j];
    }
  }

  /** The next piece from position `i`, as a lemma: it spans `s[i..j]`. */
  lemma NextSpan(s: string, i: nat) returns (p: Piece, j: nat)
    requires i < |s|
    ensures i < j <= |s|
    ensures PiecesFrom(s, i) == [p] + PiecesFrom(s, j)
    ensures PieceSource(p) == s[i..j]
  {
    StepAt(s, i);
    if MatchesAt(s, i) {
      j := MatchEnd(s, i);
      p := Link(s[i + 8..j]);
    } else {
      j := i + 1;
      p := Text(s[i]);
    }
  }

  lemma SliceSplit(s: string, i: nat, j: nat)
    requires i <= j <= |s|
    ensures s[i..] == s[i..j] + s[j..]
  {
  }

  /** The tokenisation loses nothing: the rewrite changes the matches and
      leaves every other character alone. */
  lemma {:induction false} SourceOfPieces(s: string, i: nat)
    requires i <= |s|
    ensures Source(PiecesFrom(s, i)) == s[i..]
    decreases |s| - i
  {
    if i < |s| {
      var p, j := NextSpan(s, i);
      Cons(p, PiecesFrom(s, j));
      SourceOfPieces(s, j);
      SliceSplit(s, i, j);
    }
  }

  /** The tokenisation only produces proper links. */
  lemma {:induction false} PiecesWellFormed(s: string, i: nat)
    requires i <= |s|
    ensures WellFormed(PiecesFrom(s, i))
    decreases |s| - i
  {
    if i < |s| {
      StepAt(s, i);
      var k := if MatchesAt(s, i) then MatchEnd(s, i) else i + 1;
      PiecesWellFormed(s, k);
      if MatchesAt(s, i) {
        RunLengthChars(s, i + 8);
      }
      var ps := PiecesFrom(s, i);
      forall m | 1 <= m < |ps| && ps[m].Link?
        ensures ps[m].name != [] && forall j :: 0 <= j < |ps[m].name| ==> IsStaticChar(ps[m].name[j])
      {
        assert ps[m] == PiecesFrom(s, k)[m - 1];
      }
    }
  }

  /** Every link save pairs the matched text with the name after `/static/`,
      which is what splitting the link on `/static/` leaves last, since a name
      holds no `/`. */
  lemma {:induction false} SavesMatchLinks(ps: seq<Piece>)
    requires WellFormed(ps)
    ensures forall i :: 0 <= i < |Saves(ps)| ==>
      Saves(ps)[i].link == StaticPrefix + Saves(ps)[i].filename && '/' !in Saves(ps)[i].filename
  {
    if ps != [] {
      assert WellFormed(ps[1..]) by {
        forall i | 0 <= i < |ps[1..]| && ps[1..][i].Link?
          ensures ps[1..][i].name != [] && forall k :: 0 <= k < |ps[1..][i].name| ==> IsStaticChar(ps[1..][i].name[k])
        {
          assert ps[1..][i] == ps[i + 1];
        }
      }
      SavesMatchLinks(ps[1..]);
      if ps[0].Link? {
        assert forall k :: 0 <= k < |ps[0].name| ==> ps[0].name[k] != '/' by {
          forall k | 0 <= k < |ps[0].name| ensures ps[0].name[k] != '/' {
            assert IsStaticChar(ps[0].name[k]);
          }
        }
      }
    }
  }

  /** One search step of the substitution from position `i`: the next piece
      and the position after it. A link piece carries the matched text. */
  method NextPiece(s: string, i: nat) returns (p: Piece, j: nat)
    requires i < |s|
    ensures i < j <= |s|
    ensures PiecesFrom(s, i) == [p] + PiecesFrom(s, j)
    ensures p.Text? ==> p.c == s[i] && j == i + 1
  {
    StepAt(s, i);
    if MatchesAt(s, i) {
      j := MatchEnd(s, i);
      p := Link(s[i + 8..j]);
    } else {
      p := Text(s[i]);
      j := i + 1;
    }
  }

  /** A text where the pattern matches nowhere is left as it is and triggers
      no save. */
  lemma {:induction false} NoMatchNoChange(s: string, i: nat)
    requires i <= |s|
    requires forall k: nat :: i <= k < |s| ==> !MatchesAt(s, k)
    ensures Render(PiecesFrom(s, i)) == s[i..] && Saves(PiecesFrom(s, i)) == []
    decreases |s| - i
  {
    if i < |s| {
      StepAt(s, i);
      Cons(Text(s[i]), PiecesFrom(s, i + 1));
      NoMatchNoChange(s, i + 1);
      assert s[i..] == [s[i]] + s[i + 1..];
    }
  }

  /** Whether the package is stale: there is no package yet, or the block was
      published after it was created. */
  function IsModified(packageCreated: Option<int>, publishedOn: int): (b: bool)
    ensures packageCreated.None? ==> b
    ensures packageCreated.Some? ==> (b <==> publishedOn > packageCreated.value)
  {
    match packageCreated
    case None => true
    case Some(created) => publishedOn > created
  }

  /** `save_asset_file` on the storage: a found asset is copied into the
      package's `assets/` directory; a missing one is skipped. */
  function StoreAsset(storage: map<string, string>, assets: map<string, string>, base: string, a: AssetSave): (r: map<string, string>)
    ensures a.link !in assets ==> r == storage
    ensures a.link in assets ==> r == storage[base + AssetsPrefix + a.filename := assets[a.link]]
  {
    if a.link in assets then storage[base + AssetsPrefix + a.filename := assets[a.link]] else storage
  }

  /** The asset saves applied in order. */
  function StoreAll(storage: map<string, string>, assets: map<string, string>, base: string, saves: seq<AssetSave>): map<string, string>
    decreases |saves|
  {
    if saves == [] then storage else StoreAll(StoreAsset(storage, assets, base, saves[0]), assets, base, saves[1..])
  }

  lemma StoreAllCons(storage: map<string, string>, assets: map<string, string>, base: string, a: AssetSave, rest: seq<AssetSave>)
    ensures StoreAll(storage, assets, base, [a] + rest) == StoreAll(StoreAsset(storage, assets, base, a), assets, base, rest)
  {
    assert ([a] + rest)[1..] == rest;
  }

  /** Saving assets writes only under the package's `assets/` directory. */
  lemma {:induction false} StoreAllOnlyAssets(storage: map<string, string>, assets: map<string, string>, base: string, saves: seq<AssetSave>, p: string)
    requires !StartsWith(p, base + AssetsPrefix)
    ensures var r := StoreAll(storage, assets, base, saves);
      (p in r <==> p in storage) && (p in storage ==> r[p] == storage[p])
    decreases |saves|
  {
    if saves != [] {
      var a := saves[0];
      if a.link in assets {
        var q := base + AssetsPrefix + a.filename;
        assert q[..|base + AssetsPrefix|] == base + AssetsPrefix;
      }
      StoreAllOnlyAssets(StoreAsset(storage, assets, base, a), assets, base, saves[1..], p);
    }
  }

  /** The observable state of the block's packaging. */
  datatype PackageState = PackageState(
    storage: map<string, string>,
    attempts: seq<AssetSave>,
    packageCreated: Option<int>)

  /** `update_info_api`: nothing when the package is fresh; otherwise the
      rewritten page and its assets are stored and the package is created at
      `now`. */
  function UpdateSpec(st: PackageState, loc: Location, data: string, assets: map<string, string>,
                      publishedOn: int, now: int): PackageState {
    if !IsModified(st.packageCreated, publishedOn) then st
    else
      var base := BaseStoragePath(loc);
      var ps := Pieces(data);
      PackageState(
        StoreAll(st.storage, assets, base, Saves(ps))[base + IndexPage := Render(ps)],
        st.attempts + Saves(ps),
        Some(now))
  }

  /** A package created no earlier than the publication is fresh, so a second
      update does nothing: updating is idempotent. */
  lemma UpdateIdempotent(st: PackageState, loc: Location, data: string, assets: map<string, string>,
                         publishedOn: int, now: int, later: int)
    requires publishedOn <= now
    ensures var once := UpdateSpec(st, loc, data, assets, publishedOn, now);
      && !IsModified(once.packageCreated, publishedOn)
      && UpdateSpec(once, loc, data, assets, publishedOn, later) == once
  {
  }

  /** A stale package gets the rewritten page at `index.html`, and one save
      attempt per link, in order; a fresh one is left alone. */
  lemma UpdateWritesPage(st: PackageState, loc: Location, data: string, assets: map<string, string>,
                         publishedOn: int, now: int)
    ensures var r := UpdateSpec(st, loc, data, assets, publishedOn, now);
      var path := BaseStoragePath(loc) + IndexPage;
      && (!IsModified(st.packageCreated, publishedOn) ==> r == st)
      && (IsModified(st.packageCreated, publishedOn) ==>
            && path in r.storage && r.storage[path] == Render(Pieces(data))
            && r.attempts == st.attempts + Saves(Pieces(data))
            && |r.attempts| >= |st.attempts| && r.attempts[..|st.attempts|] == st.attempts
            && (forall i :: |st.attempts| <= i < |r.attempts| ==> r.attempts[i].link == StaticPrefix + r.attempts[i].filename)
            && r.packageCreated == Some(now))
  {
    if IsModified(st.packageCreated, publishedOn) {
      PiecesWellFormed(data, 0);
      SavesMatchLinks(Pieces(data));
      var r := UpdateSpec(st, loc, data, assets, publishedOn, now);
      assert r.attempts[..|st.attempts|] == st.attempts;
      assert forall i :: |st.attempts| <= i < |r.attempts| ==> r.attempts[i] == Saves(Pieces(data))[i - |st.attempts|];
    }
  }

  /** What `student_view_data` answers. */
  datatype HtmlInfo = HtmlInfo(lastModified: int, htmlData: string, size: nat, indexPage: string)

  /** The HTML block's packaging state. */
  class HtmlBlockPackage {
    const loc: Location
    const data: string
    const publishedOn: int
    const assets: map<string, string>
    var storage: map<string, string>
    var attempts: seq<AssetSave>
    var packageCreated: Option<int>

    function State(): PackageState
      reads this
    {
      PackageState(storage, attempts, packageCreated)
    }

    constructor (loc: Location, data: string, publishedOn: int, assets: map<string, string>, init: PackageState)
      ensures this.loc == loc && this.data == data && this.publishedOn == publishedOn && this.assets == assets
      ensures State() == init
    {
      this.loc := loc;
      this.data := data;
      this.publishedOn := publishedOn;
      this.assets := assets;
      storage := init.storage;
      attempts := init.attempts;
      packageCreated := init.packageCreated;
    }

    /** `_base_storage_path`. */
    function BasePath(): (r: string)
      reads this
      ensures r == BaseStoragePath(loc)
      ensures StartsWith(r, loc.org + "/") && r[|r| - 1] == '/'
    {
      BaseStoragePath(loc)
    }

    /** `is_modified`, on the package's created time. */
    function Modified(): bool
      reads this
    {
      IsModified(packageCreated, publishedOn)
    }

    /** `save_asset_file`. */
    method SaveAssetFile(link: string, filename: string)
      modifies this
      ensures storage == StoreAsset(old(storage), assets, BaseStoragePath(loc), AssetSave(link, filename))
      ensures attempts == old(attempts) + [AssetSave(link, filename)]
      ensures packageCreated == old(packageCreated)
    {
      attempts := attempts + [AssetSave(link, filename)];
      if link in assets {
        var basePath := BasePath();
        storage := storage[basePath + AssetsPrefix + filename := assets[link]];
      }
    }

    /** `pattern.sub(replace_static_links, data)`: a left-to-right scan that
        replaces each match and saves its asset as it is found. */
    method RewriteStaticLinks(s: string) returns (out: string)
      modifies this
      ensures out == Render(Pieces(s))
      ensures storage == StoreAll(old(storage), assets, BaseStoragePath(loc), Saves(Pieces(s)))
      ensures attempts == old(attempts) + Saves(Pieces(s))
      ensures packageCreated == old(packageCreated)
    {
      var base := BasePath();
      ghost var finalOut := Render(Pieces(s));
      ghost var finalStorage := StoreAll(storage, assets, base, Saves(Pieces(s)));
      ghost var finalAttempts := attempts + Saves(Pieces(s));
      out := [];
      var i := 0;
      while i < |s|
        invariant 0 <= i <= |s|
        invariant finalOut == out + Render(PiecesFrom(s, i))
        invariant finalStorage == StoreAll(storage, assets, base, Saves(PiecesFrom(s, i)))
        invariant finalAttempts == attempts + Saves(PiecesFrom(s, i))
        invariant packageCreated == old(packageCreated)
        decreases |s| - i
      {
        var p, j := NextPiece(s, i);
        ghost var rest := PiecesFrom(s, j);
        Cons(p, rest);
        Assoc(out, PieceRender(p), Render(rest));
        Assoc(attempts, PieceSaves(p), Saves(rest));
        if p.Link? {
          StoreAllCons(storage, assets, base, AssetSave(StaticPrefix + p.name, p.name), Saves(rest));
          SaveAssetFile(StaticPrefix + p.name, p.name);
        } else {
          EmptyConcat(Saves(rest));
        }
        out := out + PieceRender(p);
        i := j;
      }
    }

    /** `update_info_api`, without the iframe replacement and the zip writing
        (the package's creation is recorded at `now`). */
    method UpdateInfoApi(now: int)
      modifies this
      ensures State() == UpdateSpec(old(State()), loc, data, assets, publishedOn, now)
    {
      if !Modified() {
        return;
      }
      var basePath := BasePath();
      var page := RewriteStaticLinks(data);
      storage := storage[basePath + IndexPage := page];
      packageCreated := Some(now);
    }

    /** `student_view_data`: a missing package is built first, so the answer
        always has a created time; the URL is made absolute and the index page
        is `index.html`. `storageUrl` and `size` are what the storage backend
        reports for the package file. */
    method StudentViewData(now: int, storageUrl: string, size: nat, lmsRootUrl: string) returns (info: HtmlInfo)
      modifies this
      ensures old(packageCreated).None? ==> State() == UpdateSpec(old(State()), loc, data, assets, publishedOn, now)
      ensures old(packageCreated).Some? ==> State() == old(State())
      ensures packageCreated.Some?
      ensures info == HtmlInfo(packageCreated.value, AbsoluteUrl(storageUrl, lmsRootUrl), size, IndexPage)
    {
      if packageCreated.None? {
        UpdateInfoApi(now);
      }
      var htmlData := storageUrl;
      if !StartsWith(htmlData, "http") {
        htmlData := lmsRootUrl + htmlData;
      }
      info := HtmlInfo(packageCreated.value, htmlData, size, IndexPage);
    }
  }

  /** The package file lives at `content_html.zip` in the block's directory. */
  function PackagePath(loc: Location): (p: string)
    ensures StartsWith(p, BaseStoragePath(loc)) && p[|BaseStoragePath(loc)|..] == FileName
  {
    var p := BaseStoragePath(loc) + FileName;
    assert p[..|BaseStoragePath(loc)|] == BaseStoragePath(loc);
    p
  }
}
