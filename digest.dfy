/**
 * `_get_digest`: the image digest a `docker push` transcript reports.
 *
 * The source searches the transcript with `digest: (sha256:[0-9a-z]+)`
 * (Python's `re.search`): the leftmost position where the marker
 * `digest: sha256:` is followed by at least one lower-case letter or digit,
 * and then the longest such run. Group 1 starts at `sha256:`.
 */
module Digest {

  import opened Wrappers

  /** What `_get_digest` raises: no match, so `m.group(1)` fails with AttributeError. */
  datatype DigestError = DigestNotFound

  const Marker := "digest: sha256:"

  /** Where group 1 starts, relative to the marker: after `digest: `. */
  const GroupOffset := 8

  /** The class `[0-9a-z]`. */
  predicate DigestChar(c: char) {
    '0' <= c <= '9' || 'a' <= c <= 'z'
  }

  /** The marker occurs at `p`. */
  predicate MarkerAt(s: string, p: nat) {
    p + |Marker| <= |s| && s[p..p + |Marker|] == Marker
  }

  /** The pattern matches at `p`: the marker, then at least one digest character. */
  predicate MatchAt(s: string, p: nat) {
    MarkerAt(s, p) && p + |Marker| < |s| && DigestChar(s[p + |Marker|])
  }

  /** The leftmost `p >= from` at which the pattern matches. */
  function FirstMatch(s: string, from: nat): (r: Option<nat>)
    ensures r.Some? ==> from <= r.value && MatchAt(s, r.value)
    ensures r.Some? ==> forall q: nat :: from <= q < r.value ==> !MatchAt(s, q)
    ensures r.None? ==> forall q: nat :: from <= q ==> !MatchAt(s, q)
    decreases |s| - from
  {
    if from + |Marker| >= |s| then None
    else if MatchAt(s, from) then Some(from)
    else FirstMatch(s, from + 1)
  }

  /** The end of the longest run of digest characters starting at `i`. */
  function DigestRunEnd(s: string, i: nat): (e: nat)
    requires i <= |s|
    ensures i <= e <= |s|
    decreases |s| - i
  {
    if i < |s| && DigestChar(s[i]) then DigestRunEnd(s, i + 1) else i
  }

  /** The run holds only digest characters and is followed by another character or the end. */
  lemma {:induction false} DigestRunEndSpec(s: string, i: nat)
    requires i <= |s|
    ensures forall k :: i <= k < DigestRunEnd(s, i) ==> DigestChar(s[k])
    ensures DigestRunEnd(s, i) < |s| ==> !DigestChar(s[DigestRunEnd(s, i)])
    decreases |s| - i
  {
    if i < |s| && DigestChar(s[i]) {
      DigestRunEndSpec(s, i + 1);
    }
  }

  /** A run that ends at a non-digest character, or at the end, is the maximal one. */
  lemma {:induction false} DigestRunEndOf(s: string, i: nat, e: nat)
    requires i <= e <= |s|
    requires forall k :: i <= k < e ==> DigestChar(s[k])
    requires e < |s| ==> !DigestChar(s[e])
    ensures DigestRunEnd(s, i) == e
    decreases e - i
  {
    if i < e {
      DigestRunEndOf(s, i + 1, e);
    }
  }

  /** `_get_digest(output)`: group 1 of the leftmost match. */
  function GetDigest(s: string): Result<string, DigestError> {
    match FirstMatch(s, 0)
    case None => Err(DigestNotFound)
    case Some(p) => Ok(s[p + GroupOffset..DigestRunEnd(s, p + |Marker|)])
  }

  /** There is a digest exactly when the pattern matches somewhere. */
  lemma GetDigestFound(s: string)
    ensures GetDigest(s).Ok? <==> exists p: nat :: MatchAt(s, p)
  {
    if GetDigest(s).Ok? {
      assert MatchAt(s, FirstMatch(s, 0).value);
    }
  }

  /**
   * What the digest is: at the leftmost match, `sha256:` followed by the
   * longest non-empty run of `[0-9a-z]` after the marker.
   */
  lemma GetDigestShape(s: string)
    requires GetDigest(s).Ok?
    ensures var p, d := FirstMatch(s, 0).value, GetDigest(s).value;
      && MatchAt(s, p)
      && (forall q: nat :: q < p ==> !MatchAt(s, q))
      && |d| > 7 && d[..7] == "sha256:"
      && (forall k :: 7 <= k < |d| ==> DigestChar(d[k]))
      && p + GroupOffset + |d| <= |s| && s[p + GroupOffset..p + GroupOffset + |d|] == d
      && (p + GroupOffset + |d| < |s| ==> !DigestChar(s[p + GroupOffset + |d|]))
  {
    var p := FirstMatch(s, 0).value;
    var e := DigestRunEnd(s, p + |Marker|);
    var d := GetDigest(s).value;
    DigestRunEndSpec(s, p + |Marker|);
    assert d == s[p + GroupOffset..e];
    GroupText(s, p, e);
    forall k | 7 <= k < |d| ensures DigestChar(d[k]) {
      assert d[k] == s[p + GroupOffset + k];
    }
  }

  /** Group 1 starts with the last seven characters of the marker, `sha256:`. */
  lemma GroupText(s: string, p: nat, e: nat)
    requires MarkerAt(s, p) && p + |Marker| <= e <= |s|
    ensures s[p + GroupOffset..e][..7] == "sha256:"
  {
    assert s[p + GroupOffset..e][..7] == s[p..p + |Marker|][GroupOffset..];
  }

  /**
   * A transcript with the marker after a text without `g`: the digest is
   * `sha256:` and the run after the marker. No earlier match fits, since
   * every match starting before the marker would put the `g` of `digest`
   * inside that text or a `d` where an `i` or `g` is needed.
   */
  lemma GetDigestAfter(pre: string, hex: string, post: string)
    requires 'g' !in pre
    requires hex != [] && forall k :: 0 <= k < |hex| ==> DigestChar(hex[k])
    requires post != [] ==> !DigestChar(post[0])
    ensures GetDigest(pre + Marker + hex + post) == Ok("sha256:" + hex)
  {
    var s := pre + Marker + hex + post;
    var p := |pre|;
    TranscriptChars(pre, hex, post);
    forall q: nat | q < p ensures !MarkerAt(s, q) {
      EarlyMarker(pre, s, q);
    }
    assert MatchAt(s, p);
    FirstMatchOf(s, p);
    DigestRunEndOf(s, p + |Marker|, p + |Marker| + |hex|);
    assert s[p + GroupOffset..p + |Marker| + |hex|] == "sha256:" + hex;
  }

  /** Before the marker, a text without `g` cannot hold the start of another marker. */
  lemma EarlyMarker(pre: string, s: string, q: nat)
    requires 'g' !in pre && q < |pre|
    requires |pre| + |Marker| <= |s| && s[..|pre|] == pre && s[|pre|..|pre| + |Marker|] == Marker
    ensures !MarkerAt(s, q)
  {
    var p := |pre|;
    if q + |Marker| <= |s| {
      var w := s[q..q + |Marker|];
      if q + 2 < p {
        assert s[q + 2] == pre[q + 2] && pre[q + 2] in pre;
        assert w[2] == s[q + 2];
      } else if q + 2 == p {
        assert s[p] == s[|pre|..|pre| + |Marker|][0];
        assert w[2] == s[q + 2];
      } else {
        assert s[p] == s[|pre|..|pre| + |Marker|][0];
        assert w[1] == s[q + 1];
      }
    }
  }

  /** A transcript `pre`, marker, `hex`, `post`, character by character. */
  lemma TranscriptChars(pre: string, hex: string, post: string)
    ensures var s, p := pre + Marker + hex + post, |pre|;
      && |s| == p + |Marker| + |hex| + |post|
      && (forall k :: 0 <= k < p ==> s[k] == pre[k])
      && s[..p] == pre && s[p..p + |Marker|] == Marker
      && (forall k :: 0 <= k < |Marker| ==> s[p + k] == Marker[k])
      && (forall k :: 0 <= k < |hex| ==> s[p + |Marker| + k] == hex[k])
      && (|post| > 0 ==> s[p + |Marker| + |hex|] == post[0])
      && s[p + GroupOffset..p + |Marker| + |hex|] == "sha256:" + hex
  {
    var s, p := pre + Marker + hex + post, |pre|;
    assert s[p + GroupOffset..p + |Marker|] == "sha256:";
    assert s[p + |Marker|..p + |Marker| + |hex|] == hex;
  }

  /** The leftmost match is the one with no match before it. */
  lemma FirstMatchOf(s: string, p: nat)
    requires MatchAt(s, p)
    requires forall q: nat :: q < p ==> !MatchAt(s, q)
    ensures FirstMatch(s, 0) == Some(p)
  {
    var r := FirstMatch(s, 0);
    assert r.Some? && r.value <= p;
  }

  /** A transcript without the marker has no digest. */
  lemma NoMarkerNoDigest(s: string)
    requires forall p: nat :: !MarkerAt(s, p)
    ensures GetDigest(s) == Err(DigestNotFound)
  {
    GetDigestFound(s);
  }

  /**
   * The transcript of `TestGetDigest` in lambdado_pipeline.py, line by line.
   * The lines are parameters fixed by `requires` only to keep the proof
   * cheap.
   */
  lemma TranscriptExample(line1: string, line2: string, line3: string, hex: string, rest: string)
    requires line1 == "\n            30472d65e424: Pushed"
    requires line2 == "\n            95e3c2813def: Pushed"
    requires line3 == "\n            latest: "
    requires hex == "d4c7852abfabaf3076bd6a84"
    requires rest == " size: 2841\n        "
    ensures GetDigest(line1 + line2 + line3 + Marker + hex + rest) == Ok("sha256:d4c7852abfabaf3076bd6a84")
  {
    NoG(line1);
    NoG(line2);
    NoG(line3);
    NoGJoined(line1, line2, line3);
    ExampleHex(hex);
    ExampleRest(rest);
    GetDigestAfter(line1 + line2 + line3, hex, rest);
  }

  lemma NoGJoined(a: string, b: string, c: string)
    requires 'g' !in a && 'g' !in b && 'g' !in c
    ensures 'g' !in a + b + c
  {
  }

  lemma NoG(line: string)
    requires line == "\n            30472d65e424: Pushed" || line == "\n            95e3c2813def: Pushed"
          || line == "\n            latest: "
    ensures 'g' !in line
  {
  }

  lemma ExampleHex(hex: string)
    requires hex == "d4c7852abfabaf3076bd6a84"
    ensures hex != [] && forall k :: 0 <= k < |hex| ==> DigestChar(hex[k])
    ensures "sha256:" + hex == "sha256:d4c7852abfabaf3076bd6a84"
  {
  }

  lemma ExampleRest(rest: string)
    requires rest == " size: 2841\n        "
    ensures rest != [] && !DigestChar(rest[0])
  {
  }
}
