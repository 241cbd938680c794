/**
 * ECR repository URIs of the form `host/name[:tag|@digest]`, as parsed by the
 * `EcrRepoUri` class of the deploy pipeline, and the stand-alone region lookup
 * `ecr_repo_uri_to_region`.
 *
 * The class matches the regular expression `(.+)/([^@:]+)(?:[@:](.+))?` at the
 * start of the string (Python's `re.match`, so nothing is required after the
 * match). In Python's default mode `.` matches every character except a line
 * feed, while the class `[^@:]` matches line feeds too. Backtracking makes
 * group 1 end at the LAST slash that is followed by a name character and that
 * has no line feed before it; group 2 is then the longest run of name
 * characters; group 3, when present, is the longest run of non-line-feed
 * characters after the `:` or `@` that ends group 2.
 */
module RepoUris {

  import opened Wrappers
  import opened Strings

  /** What the constructor raises: no regex match, or a host with fewer than three `.`-segments. */
  datatype UriError =
    | NoMatch              // `m` is None, so `m.group(1)` raises AttributeError
    | TooFewHostSegments   // `host.split('.')[-3]` raises IndexError
    | NoAwsHost            // `next(...)` in `ecr_repo_uri_to_region` raises StopIteration

  /**
   * A parsed repository URI. `tag` holds whatever follows the name after `:`
   * or `@`, so it holds a digest such as `sha256:...` as well as a tag.
   */
  datatype RepoUri = RepoUri(uri: string, host: string, name: string, tag: Option<string>, region: string)

  /** The characters `.` does not match. */
  const LineBreak: set<char> := {'\n'}

  /** The characters `[^@:]` does not match. */
  const NameStops: set<char> := {'@', ':'}

  /**
   * Group 1 of the pattern can end at `h`: a slash that a name character
   * follows, with a non-empty text before it that has no line feed.
   */
  predicate HostEndsAt(s: string, h: nat) {
    && 0 < h && h + 1 < |s|
    && s[h] == '/' && s[h + 1] !in NameStops
    && h <= RunEnd(s, 0, LineBreak)
  }

  /** The greatest `h < bound` at which group 1 can end: the greedy choice of `(.+)`. */
  function LastHostEnd(s: string, bound: nat): (r: Option<nat>)
    ensures r.Some? ==> r.value < bound && HostEndsAt(s, r.value)
    ensures r.Some? ==> forall h: nat :: r.value < h < bound ==> !HostEndsAt(s, h)
    ensures r.None? ==> forall h: nat :: h < bound ==> !HostEndsAt(s, h)
    decreases bound
  {
    if bound == 0 then None
    else if HostEndsAt(s, bound - 1) then Some(bound - 1)
    else LastHostEnd(s, bound - 1)
  }

  /** `host.split('.')[-3]`: the third-from-last `.`-segment of the host. */
  function RegionOf(host: string): (r: Option<string>)
    ensures r.Some? <==> |Split(host, '.')| >= 3
  {
    FromEnd(Split(host, '.'), 3)
  }

  /** Group 3 of the pattern when group 2 ends at `e`: the rest of the line after `:` or `@`, if non-empty. */
  function TagAt(s: string, e: nat): Option<string>
    requires e <= |s|
  {
    if e + 1 < |s| && s[e + 1] !in LineBreak then Some(s[e + 1..RunEnd(s, e + 1, LineBreak)]) else None
  }

  /** `EcrRepoUri(uri)`: the constructor, which raises instead of returning a value on bad input. */
  function Parse(s: string): (r: Result<RepoUri, UriError>)
    ensures r.Ok? ==> r.value.uri == s
    ensures r.Ok? ==> RegionOf(r.value.host) == Some(r.value.region)
  {
    match LastHostEnd(s, |s|)
    case None => Err(NoMatch)
    case Some(h) =>
      var e := RunEnd(s, h + 1, NameStops);
      var host := s[..h];
      match RegionOf(host)
      case None => Err(TooFewHostSegments)
      case Some(region) => Ok(RepoUri(s, host, s[h + 1..e], TagAt(s, e), region))
  }

  /** The pattern fails to match exactly when no slash can end group 1. */
  lemma ParseNoMatch(s: string)
    ensures Parse(s) == Err(NoMatch) <==> forall h: nat :: !HostEndsAt(s, h)
  {
    match LastHostEnd(s, |s|)
    case None =>
    case Some(h) =>
      assert Parse(s) != Err(NoMatch);
  }

  /**
   * The constructor's two failures: `IndexError` exactly when the pattern
   * matches but the greedy host has fewer than three `.`-segments, and never
   * the `StopIteration` of `ecr_repo_uri_to_region`.
   */
  lemma ParseErrors(s: string)
    ensures Parse(s) != Err(NoAwsHost)
    ensures Parse(s) == Err(TooFewHostSegments) <==>
      exists h: nat :: HostEndsAt(s, h) && (forall k: nat :: h < k ==> !HostEndsAt(s, k))
        && |Split(s[..h], '.')| < 3
  {
    match LastHostEnd(s, |s|)
    case None =>
      ParseNoMatch(s);
    case Some(h) =>
      if Parse(s) != Err(TooFewHostSegments) {
        forall h': nat | HostEndsAt(s, h') && (forall k: nat :: h' < k ==> !HostEndsAt(s, k))
          ensures |Split(s[..h'], '.')| >= 3
        {
          assert h' == h;
        }
      }
  }

  /** The `uri_without_tag` property. */
  function WithoutTag(u: RepoUri): string {
    u.host + "/" + u.name
  }

  /** `__str__`: the string the URI was built from. */
  function ToString(u: RepoUri): string {
    u.uri
  }

  /**
   * How a parsed URI sits in its string: the host is a non-empty text without
   * a line feed, the name a non-empty text without `@` or `:` right after the
   * slash and ending at `@`, `:` or the end, and the host is the longest possible.
   */
  lemma ParseShape(s: string)
    requires Parse(s).Ok?
    ensures var u := Parse(s).value;
      var n := |WithoutTag(u)|;
      && u.host != [] && u.name != []
      && n <= |s| && s[..n] == WithoutTag(u)
      && '\n' !in u.host
      && '@' !in u.name && ':' !in u.name
      && (forall h: nat :: |u.host| < h ==> !HostEndsAt(s, h))
      && (n < |s| ==> s[n] == '@' || s[n] == ':')
  {
    var h := LastHostEnd(s, |s|).value;
    var e := RunEnd(s, h + 1, NameStops);
    var u := Parse(s).value;
    assert u.host == s[..h] && u.name == s[h + 1..e];
    GroupsShape(s, h);
  }

  /** Groups 1 and 2 when group 1 ends at `h`. */
  lemma GroupsShape(s: string, h: nat)
    requires HostEndsAt(s, h)
    ensures var e := RunEnd(s, h + 1, NameStops);
      && h + 1 < e && '\n' !in s[..h] && '@' !in s[h + 1..e] && ':' !in s[h + 1..e]
      && s[..h] + "/" + s[h + 1..e] == s[..e]
      && (e < |s| ==> s[e] == '@' || s[e] == ':')
  {
    var e := RunEnd(s, h + 1, NameStops);
    RunEndSpec(s, 0, LineBreak);
    RunEndSpec(s, h + 1, NameStops);
    SliceAround(s, h, e);
    var host, name := s[..h], s[h + 1..e];
    forall k | 0 <= k < |host| ensures host[k] != '\n' {
      assert host[k] == s[k];
    }
    forall k | 0 <= k < |name| ensures name[k] !in NameStops {
      assert name[k] == s[h + 1 + k];
    }
  }

  /** The text up to `e` is the text before `h`, a slash and the text between. */
  lemma SliceAround(s: string, h: nat, e: nat)
    requires h < e <= |s| && s[h] == '/'
    ensures s[..h] + "/" + s[h + 1..e] == s[..e]
  {
  }

  /**
   * Where the tag of a parsed URI comes from: it is absent when a line feed or
   * the end follows the separator, and otherwise it is the rest of the line
   * after the `:` or `@` that ends the name.
   */
  lemma ParseTagShape(s: string)
    requires Parse(s).Ok?
    ensures var u := Parse(s).value;
      var n := |u.host| + 1 + |u.name|;
      && (u.tag.None? ==> n + 1 >= |s| || s[n + 1] == '\n')
      && (u.tag.Some? ==> && n + 1 + |u.tag.value| <= |s|
                          && u.tag.value != []
                          && s[n + 1..n + 1 + |u.tag.value|] == u.tag.value
                          && '\n' !in u.tag.value
                          && (n + 1 + |u.tag.value| < |s| ==> s[n + 1 + |u.tag.value|] == '\n'))
  {
    var h := LastHostEnd(s, |s|).value;
    var e := RunEnd(s, h + 1, NameStops);
    var u := Parse(s).value;
    assert |u.host| + 1 + |u.name| == e && u.tag == TagAt(s, e);
    TagAtShape(s, e);
  }

  /** Group 3 after position `e`: absent before a line feed or the end, otherwise the rest of the line. */
  lemma TagAtShape(s: string, e: nat)
    requires e <= |s|
    ensures TagAt(s, e).None? ==> e + 1 >= |s| || s[e + 1] == '\n'
    ensures TagAt(s, e).Some? ==>
      var t := TagAt(s, e).value;
      && e + 1 + |t| <= |s| && t != [] && s[e + 1..e + 1 + |t|] == t && '\n' !in t
      && (e + 1 + |t| < |s| ==> s[e + 1 + |t|] == '\n')
  {
    if TagAt(s, e).Some? {
      var f := RunEnd(s, e + 1, LineBreak);
      RunEndSpec(s, e + 1, LineBreak);
      var t := TagAt(s, e).value;
      assert t == s[e + 1..f];
      forall k | 0 <= k < |t| ensures t[k] != '\n' {
        assert t[k] == s[e + 1 + k];
      }
    }
  }

  /** The URI strings the pipeline composes: `host/name`, optionally followed by `:tag` or `@digest`. */
  function Compose(host: string, name: string, suffix: Option<(char, string)>): string {
    host + "/" + name + SuffixText(suffix)
  }

  function SuffixText(suffix: Option<(char, string)>): string {
    match suffix case None => "" case Some((sep, tag)) => [sep] + tag
  }

  /** A host the parser recovers: a non-empty line with a region segment. */
  predicate HostPart(host: string) {
    host != [] && '\n' !in host && RegionOf(host).Some?
  }

  /** A name the parser recovers: non-empty, without `/`, `@` or `:`. */
  predicate NamePart(name: string) {
    name != [] && '/' !in name && '@' !in name && ':' !in name
  }

  /** A suffix the parser recovers: `:` or `@` and then a non-empty, single-line, slash-free text. */
  predicate SuffixPart(suffix: Option<(char, string)>) {
    suffix.Some? ==>
      && (suffix.value.0 == ':' || suffix.value.0 == '@')
      && suffix.value.1 != [] && '\n' !in suffix.value.1 && '/' !in suffix.value.1
  }

  /** The parts such a string can be built from so that the parser recovers them. */
  predicate ComposableParts(host: string, name: string, suffix: Option<(char, string)>) {
    HostPart(host) && NamePart(name) && SuffixPart(suffix)
  }

  /** In `host/rest`, with a single-line host and a slash-free rest, group 1 is the host. */
  lemma HostEndAfter(host: string, rest: string)
    requires host != [] && '\n' !in host
    requires rest != [] && rest[0] !in NameStops && '/' !in rest
    ensures LastHostEnd(host + ['/'] + rest, |host + ['/'] + rest|) == Some(|host|)
  {
    var s := host + ['/'] + rest;
    var h := |host|;
    forall k: nat | h < k < |s| ensures !HostEndsAt(s, k) {
      assert s[k] == rest[k - h - 1];
      assert rest[k - h - 1] in rest;
    }
    forall k | 0 <= k < h ensures s[k] !in LineBreak {
      assert s[k] == host[k];
      assert host[k] in host;
    }
    RunEndPast(s, 0, LineBreak, h);
    assert s[h + 1] == rest[0];
    assert HostEndsAt(s, h);
  }

  /** The characters of a composed URI after the slash. */
  lemma ComposeChars(host: string, name: string, suffix: Option<(char, string)>)
    ensures var s, h := Compose(host, name, suffix), |host|;
      && |s| == h + 1 + |name| + |SuffixText(suffix)|
      && (forall k :: h + 1 <= k < h + 1 + |name| ==> s[k] == name[k - h - 1])
      && (forall k :: h + 1 + |name| <= k < |s| ==> s[k] == SuffixText(suffix)[k - h - 1 - |name|])
      && s[h + 1..h + 1 + |name|] == name
      && s[h + 1 + |name|..] == SuffixText(suffix)
  {
  }

  /** In a composed URI the name run ends where `name` ends. */
  lemma ComposeNameEnd(host: string, name: string, suffix: Option<(char, string)>)
    requires NamePart(name) && SuffixPart(suffix)
    ensures var s := Compose(host, name, suffix); RunEnd(s, |host| + 1, NameStops) == |host| + 1 + |name|
  {
    var s := Compose(host, name, suffix);
    var h, e := |host|, |host| + 1 + |name|;
    ComposeChars(host, name, suffix);
    forall k | h + 1 <= k < e ensures s[k] !in NameStops {
      assert name[k - h - 1] in name;
    }
    RunEndOf(s, h + 1, NameStops, e);
  }

  /** In a composed URI group 3 is the tag or digest after the separator. */
  lemma ComposeTag(host: string, name: string, suffix: Option<(char, string)>)
    requires SuffixPart(suffix)
    ensures var s, e := Compose(host, name, suffix), |host| + 1 + |name|;
      e <= |s| && TagAt(s, e) == if suffix.None? then None else Some(suffix.value.1)
  {
    var s, e := Compose(host, name, suffix), |host| + 1 + |name|;
    ComposeChars(host, name, suffix);
    if suffix.Some? {
      var tag := suffix.value.1;
      assert SuffixText(suffix) == [suffix.value.0] + tag;
      assert s[e + 1..] == tag;
      forall k | e + 1 <= k < |s| ensures s[k] !in LineBreak {
        assert s[k] == tag[k - e - 1];
        assert tag[k - e - 1] in tag;
      }
      RunEndOf(s, e + 1, LineBreak, |s|);
      assert s[e + 1] == tag[0];
      assert s[e + 1..RunEnd(s, e + 1, LineBreak)] == tag;
    } else {
      assert SuffixText(suffix) == [];
    }
  }

  /**
   * Round trip: parsing a composed URI gives back its host, its name, its tag
   * or digest (None when there is no suffix) and the region of its host.
   */
  lemma ParseCompose(host: string, name: string, suffix: Option<(char, string)>)
    requires ComposableParts(host, name, suffix)
    ensures var s := Compose(host, name, suffix);
      Parse(s) == Ok(RepoUri(s, host, name, if suffix.None? then None else Some(suffix.value.1), RegionOf(host).value))
  {
    var s := Compose(host, name, suffix);
    var rest := name + SuffixText(suffix);
    ComposeLayout(host, name, suffix);
    HostEndAfter(host, rest);
    ComposeChars(host, name, suffix);
    ComposeNameEnd(host, name, suffix);
    ComposeTag(host, name, suffix);
    ParseAt(s, host, name, if suffix.None? then None else Some(suffix.value.1));
  }

  /** A composed URI is its host, a slash and the rest, which starts with the name. */
  lemma ComposeLayout(host: string, name: string, suffix: Option<(char, string)>)
    requires name != []
    ensures var s, rest := Compose(host, name, suffix), name + SuffixText(suffix);
      s == host + ['/'] + rest && s[..|host|] == host && rest[0] == name[0]
  {
  }

  /** Parse in terms of the text of the regex groups. */
  lemma ParseAt(s: string, host: string, name: string, tag: Option<string>)
    requires |host| + 1 + |name| <= |s|
    requires LastHostEnd(s, |s|) == Some(|host|) && s[..|host|] == host
    requires RunEnd(s, |host| + 1, NameStops) == |host| + 1 + |name|
    requires s[|host| + 1..|host| + 1 + |name|] == name
    requires TagAt(s, |host| + 1 + |name|) == tag
    requires RegionOf(host).Some?
    ensures Parse(s) == Ok(RepoUri(s, host, name, tag, RegionOf(host).value))
  {
  }

  /** A string without a slash is not a repository URI. */
  lemma NoSlashNoMatch(s: string)
    requires '/' !in s
    ensures Parse(s) == Err(NoMatch)
  {
    forall h: nat ensures !HostEndsAt(s, h) {
      if 0 < h < |s| {
        assert s[h] in s;
      }
    }
  }

  // ---- region lookup ----

  /** `p.a.b` regrouped around its first dot. */
  lemma DotRegroup(p: string, a: string, b: string)
    ensures p + "." + a + "." + b == p + ['.'] + (a + ['.'] + b)
  {
  }

  /** Splitting `q.x.y` at the dots, where `x` and `y` have none: the pieces of `q`, then `x`, then `y`. */
  lemma SplitTail(q: string, x: string, y: string)
    requires '.' !in x && '.' !in y
    ensures Split(q + ['.'] + (x + ['.'] + y), '.') == Split(q, '.') + [x, y]
  {
    SplitAppend(x, '.', y);
    SplitNoSeparator(x, '.');
    SplitNoSeparator(y, '.');
    SplitAppend(q, '.', x + ['.'] + y);
  }

  /** The same split, with the host written `q.x.y`. */
  lemma SplitDots(q: string, x: string, y: string)
    requires '.' !in x && '.' !in y
    ensures Split(q + "." + x + "." + y, '.') == Split(q, '.') + [x, y]
  {
    DotRegroup(q, x, y);
    SplitTail(q, x, y);
  }

  /** A host `q.x.y` whose last two segments are `x` and `y` has the last segment of `q` as its region. */
  lemma RegionOfTail(q: string, x: string, y: string)
    requires '.' !in x && '.' !in y
    ensures var p := Split(q, '.'); RegionOf(q + "." + x + "." + y) == Some(p[|p| - 1])
  {
    SplitDots(q, x, y);
    var p := Split(q, '.');
    var all := p + [x, y];
    assert FromEnd(all, 3) == Some(p[|p| - 1]);
  }

  /** The region segment of a host `p.region.x.y` is `region`. */
  lemma RegionOfSegments(p: string, region: string, x: string, y: string)
    requires '.' !in region && '.' !in x && '.' !in y
    ensures RegionOf(p + "." + region + "." + x + "." + y) == Some(region)
  {
    var q := p + "." + region;
    assert q == p + ['.'] + region;
    SplitAppend(p, '.', region);
    SplitNoSeparator(region, '.');
    RegionOfTail(q, x, y);
  }

  /** The first of `parts` that ends with `suffix`: Python's `next(p for p in parts if p.endswith(suffix))`. */
  function FirstEndingWith(parts: seq<string>, suffix: string): (r: Option<nat>)
    ensures r.Some? ==> r.value < |parts| && EndsWith(parts[r.value], suffix)
    ensures r.Some? ==> forall i :: 0 <= i < r.value ==> !EndsWith(parts[i], suffix)
    ensures r.None? ==> forall i :: 0 <= i < |parts| ==> !EndsWith(parts[i], suffix)
  {
    if |parts| == 0 then None
    else if EndsWith(parts[0], suffix) then Some(0)
    else match FirstEndingWith(parts[1..], suffix)
      case None => None
      case Some(i) => Some(i + 1)
  }

  const AwsSuffix := ".amazonaws.com"

  /** `.amazonaws.com` is the two segments `amazonaws` and `com` after a dot. */
  lemma AwsSuffixSegments(host: string)
    requires EndsWith(host, AwsSuffix)
    ensures var q := host[..|host| - |AwsSuffix|]; host == q + "." + "amazonaws" + "." + "com"
  {
    var q := host[..|host| - |AwsSuffix|];
    assert AwsSuffix == "." + "amazonaws" + "." + "com";
    assert host == q + AwsSuffix;
  }

  /** A host ending in `.amazonaws.com` always has a third-from-last segment: the one before `amazonaws`. */
  lemma AwsHostRegion(host: string)
    requires EndsWith(host, AwsSuffix)
    ensures RegionOf(host).Some?
    ensures var p := Split(host[..|host| - |AwsSuffix|], '.'); RegionOf(host) == Some(p[|p| - 1])
  {
    AwsSuffixSegments(host);
    RegionOfTail(host[..|host| - |AwsSuffix|], "amazonaws", "com");
  }

  /** `ecr_repo_uri_to_region(uri)`: the region of the first `/`-segment that ends in `.amazonaws.com`. */
  function UriToRegion(uri: string): (r: Result<string, UriError>)
    ensures r.Err? <==> forall p :: p in Split(uri, '/') ==> !EndsWith(p, AwsSuffix)
    ensures r.Err? ==> r.error == NoAwsHost
    ensures r.Ok? ==> var parts := Split(uri, '/');
      exists i :: 0 <= i < |parts| && EndsWith(parts[i], AwsSuffix) && RegionOf(parts[i]) == Some(r.value)
        && forall j :: 0 <= j < i ==> !EndsWith(parts[j], AwsSuffix)
  {
    var parts := Split(uri, '/');
    match FirstEndingWith(parts, AwsSuffix)
    case None => Err(NoAwsHost)
    case Some(i) =>
      AwsHostRegion(parts[i]);
      Ok(RegionOf(parts[i]).value)
  }

  /**
   * The two region lookups agree: for a parsed URI whose host is a single
   * `/`-segment ending in `.amazonaws.com`, `ecr_repo_uri_to_region` gives the
   * parsed region.
   */
  lemma UriToRegionAgrees(s: string)
    requires Parse(s).Ok?
    requires '/' !in Parse(s).value.host && EndsWith(Parse(s).value.host, AwsSuffix)
    ensures UriToRegion(s) == Ok(Parse(s).value.region)
  {
    ParseShape(s);
    var u := Parse(s).value;
    var h := |u.host|;
    assert s == u.host + ['/'] + s[h + 1..];
    SplitAppend(u.host, '/', s[h + 1..]);
    SplitNoSeparator(u.host, '/');
    assert Split(s, '/')[0] == u.host;
  }

  // ---- the test vectors of `TestEctRepoUri`, for any account id ----

  /** The registry host of the tests, `<account>.dkr.ecr.us-east-1.amazonaws.com`. */
  function EcrHost(account: string): string {
    account + ".dkr.ecr" + "." + "us-east-1" + "." + "amazonaws" + "." + "com"
  }

  /** An account id as the tests use one: a non-empty line without dots or slashes. */
  predicate AccountId(account: string) {
    account != [] && '\n' !in account && '/' !in account && '.' !in account
  }

  /** The test hosts are single-line and slash-free. */
  lemma EcrHostText(account: string)
    requires AccountId(account)
    ensures var host := EcrHost(account); host != [] && '\n' !in host && '/' !in host
  {
  }

  /** The test hosts end in `.amazonaws.com`. */
  lemma EcrHostAws(account: string)
    ensures EndsWith(EcrHost(account), AwsSuffix)
  {
    assert EcrHost(account) == account + ".dkr.ecr" + ".us-east-1" + AwsSuffix;
  }

  /** The test hosts lie in `us-east-1`. */
  lemma EcrHostRegion(account: string)
    ensures RegionOf(EcrHost(account)) == Some("us-east-1")
  {
    assert '.' !in "us-east-1" && '.' !in "amazonaws" && '.' !in "com";
    RegionOfSegments(account + ".dkr.ecr", "us-east-1", "amazonaws", "com");
  }

  /** The parts of `test_with_tag` are ones the parser recovers. */
  lemma TagExampleParts(account: string)
    requires AccountId(account)
    ensures ComposableParts(EcrHost(account), "abc_x1", Some((':', "mytag")))
  {
    EcrHostText(account);
    EcrHostRegion(account);
    assert '/' !in "abc_x1" && '@' !in "abc_x1" && ':' !in "abc_x1";
    assert '\n' !in "mytag" && '/' !in "mytag";
  }

  /** The parts of `test_without_tag` are ones the parser recovers. */
  lemma NoTagExampleParts(account: string, name: string)
    requires AccountId(account)
    requires name == "abc_x1" || name == "abc"
    ensures ComposableParts(EcrHost(account), name, None)
  {
    EcrHostText(account);
    EcrHostRegion(account);
    assert '/' !in name && '@' !in name && ':' !in name;
  }

  /** The parts of `test_with_sha` are ones the parser recovers. */
  lemma DigestExampleParts(account: string, hex: string)
    requires AccountId(account)
    requires '\n' !in hex && '/' !in hex
    ensures ComposableParts(EcrHost(account), "imagename", Some(('@', "sha256:" + hex)))
  {
    EcrHostText(account);
    EcrHostRegion(account);
    assert '/' !in "imagename" && '@' !in "imagename" && ':' !in "imagename";
    assert '\n' !in "sha256:" && '/' !in "sha256:";
  }

  /** The test URIs spelled as compositions. */
  lemma ExampleTexts(host: string, hex: string)
    ensures Compose(host, "abc_x1", Some((':', "mytag"))) == host + "/abc_x1:mytag"
    ensures Compose(host, "abc_x1", None) == host + "/abc_x1"
    ensures Compose(host, "abc", None) == host + "/abc"
    ensures Compose(host, "imagename", Some(('@', "sha256:" + hex))) == host + "/imagename@" + "sha256:" + hex
  {
    assert "/" + "abc_x1" + [':'] + "mytag" == "/abc_x1:mytag";
    assert "/" + "abc_x1" == "/abc_x1";
    assert "/" + "abc" == "/abc";
    assert "/" + "imagename" + ['@'] == "/imagename@";
  }

  /** `test_with_tag`: host, name, tag, region and the URI without the tag. */
  lemma TagExample(account: string)
    requires AccountId(account)
    ensures var host, s := EcrHost(account), EcrHost(account) + "/abc_x1:mytag";
      && Parse(s) == Ok(RepoUri(s, host, "abc_x1", Some("mytag"), "us-east-1"))
      && WithoutTag(Parse(s).value) == host + "/abc_x1"
  {
    var host := EcrHost(account);
    TagExampleParts(account);
    EcrHostRegion(account);
    ExampleTexts(host, "");
    ParseCompose(host, "abc_x1", Some((':', "mytag")));
  }

  /** `test_without_tag`: no tag, and the URI without the tag is the URI itself. */
  lemma NoTagExample(account: string)
    requires AccountId(account)
    ensures var host, s := EcrHost(account), EcrHost(account) + "/abc_x1";
      && Parse(s) == Ok(RepoUri(s, host, "abc_x1", None, "us-east-1"))
      && WithoutTag(Parse(s).value) == s
  {
    var host := EcrHost(account);
    NoTagExampleParts(account, "abc_x1");
    EcrHostRegion(account);
    ExampleTexts(host, "");
    ParseCompose(host, "abc_x1", None);
  }

  /**
   * `test_with_sha`: in a digest-pinned URI the name stops at `@` and the
   * whole digest, `sha256:` included, lands in `tag`.
   */
  lemma DigestExample(account: string, hex: string)
    requires AccountId(account)
    requires '\n' !in hex && '/' !in hex
    ensures var s := EcrHost(account) + "/imagename@" + "sha256:" + hex;
      && Parse(s).Ok?
      && Parse(s).value.name == "imagename"
      && Parse(s).value.tag == Some("sha256:" + hex)
  {
    var host := EcrHost(account);
    DigestExampleParts(account, hex);
    ExampleTexts(host, hex);
    ParseCompose(host, "imagename", Some(('@', "sha256:" + hex)));
  }

  /** The module-level check of `ecr_repo_uri_to_region`: the test host yields `us-east-1`. */
  lemma UriToRegionExample(account: string)
    requires AccountId(account)
    ensures UriToRegion(EcrHost(account) + "/abc") == Ok("us-east-1")
  {
    var host := EcrHost(account);
    NoTagExampleParts(account, "abc");
    EcrHostText(account);
    EcrHostAws(account);
    EcrHostRegion(account);
    ExampleTexts(host, "");
    ParseCompose(host, "abc", None);
    UriToRegionAgrees(host + "/abc");
  }
}
