/** `extractVideoId` and the player URL of the YouTube embed component. The
    two regular expressions are written out as character-class tests and a
    leftmost substring search. */
module YouTubeEmbed {
  import opened Wrappers

  /** `[a-zA-Z0-9_-]` */
  predicate IsIdChar(c: char) {
    ('a' <= c <= 'z') || ('A' <= c <= 'Z') || ('0' <= c <= '9') || c == '_' || c == '-'
  }

  /** `^[a-zA-Z0-9_-]{11}$` */
  predicate IsVideoId(s: string) {
    |s| == 11 && forall i :: 0 <= i < |s| ==> IsIdChar(s[i])
  }

  const WatchPrefix := "youtube.com/watch?v="
  const ShortPrefix := "youtu.be/"
  const EmbedPrefix := "youtube.com/embed/"

  /** The alternatives of the URL pattern, in the order they are tried. */
  const Prefixes := [WatchPrefix, ShortPrefix, EmbedPrefix]

  /** Alternative `p` followed by the eleven-character group matches at `i`. */
  predicate AlternativeAt(s: string, p: string, i: nat) {
    && i + |p| + 11 <= |s|
    && s[i..i + |p|] == p
    && IsVideoId(s[i + |p|..i + |p| + 11])
  }

  /** The group captured by the first alternative that matches at `i`. */
  function FirstAlternative(s: string, alts: seq<string>, i: nat): (r: Option<string>)
    ensures r.None? <==> forall k :: 0 <= k < |alts| ==> !AlternativeAt(s, alts[k], i)
    ensures r.Some? ==> IsVideoId(r.value)
  {
    if alts == [] then None
    else if AlternativeAt(s, alts[0], i) then Some(s[i + |alts[0]|..i + |alts[0]| + 11])
    else
      var rest := FirstAlternative(s, alts[1..], i);
      assert forall k :: 1 <= k < |alts| ==> alts[k] == alts[1..][k - 1];
      rest
  }

  /** When alternative k is the first that matches at `i`, its group is the
      one captured. */
  lemma {:induction false} FirstAlternativePicks(s: string, alts: seq<string>, i: nat, k: nat)
    requires k < |alts|
    requires AlternativeAt(s, alts[k], i)
    requires forall m :: 0 <= m < k ==> !AlternativeAt(s, alts[m], i)
    ensures FirstAlternative(s, alts, i) == Some(s[i + |alts[k]|..i + |alts[k]| + 11])
  {
    if k > 0 {
      assert !AlternativeAt(s, alts[0], i);
      assert forall m :: 0 <= m < k - 1 ==> alts[1..][m] == alts[m + 1];
      FirstAlternativePicks(s, alts[1..], i, k - 1);
    }
  }

  /** The group the URL pattern captures when a match starts at `i`. */
  function MatchAt(s: string, i: nat): (r: Option<string>)
    ensures r.Some? ==> IsVideoId(r.value)
  {
    FirstAlternative(s, Prefixes, i)
  }

  /** The URL pattern where it first matches at or after `i`, as a regular
      expression without the `g` flag reports it: leftmost start position,
      then the first alternative there. */
  function SearchFrom(s: string, i: nat): (r: Option<string>)
    requires i <= |s|
    decreases |s| - i
    ensures r.None? <==> forall j :: i <= j <= |s| ==> MatchAt(s, j).None?
    ensures r.Some? ==> IsVideoId(r.value)
  {
    var here := MatchAt(s, i);
    if here.Some? then here
    else if i == |s| then None
    else SearchFrom(s, i + 1)
  }

  /** The two entries of `patterns`. */
  datatype Pattern = UrlPattern | WholeIdPattern

  const Patterns := [UrlPattern, WholeIdPattern]

  /** `match[1]` of `urlOrId.match(pattern)`, None when there is no match. */
  function GroupOf(p: Pattern, s: string): (r: Option<string>)
    ensures r.Some? ==> IsVideoId(r.value)
  {
    match p
    case UrlPattern => SearchFrom(s, 0)
    case WholeIdPattern => if IsVideoId(s) then Some(s) else None
  }

  /** The `for` loop: the group of the first pattern that matches. */
  function FirstMatch(patterns: seq<Pattern>, s: string): (r: Option<string>)
    ensures r.Some? ==> IsVideoId(r.value)
    ensures r.None? <==> forall k :: 0 <= k < |patterns| ==> GroupOf(patterns[k], s).None?
  {
    if patterns == [] then None
    else
      match GroupOf(patterns[0], s)
      case Some(id) => Some(id)
      case None =>
        assert forall k :: 1 <= k < |patterns| ==> patterns[k] == patterns[1..][k - 1];
        FirstMatch(patterns[1..], s)
  }

  /** `extractVideoId`: a bare id is kept, otherwise the id after the leftmost
      URL prefix, otherwise the input unchanged. The second pattern repeats
      the first test and never decides the result. */
  function ExtractVideoId(urlOrId: string): (r: string)
    ensures IsVideoId(urlOrId) ==> r == urlOrId
    ensures r == urlOrId || IsVideoId(r)
    ensures !IsVideoId(urlOrId) ==> r == match SearchFrom(urlOrId, 0) case Some(id) => id case None => urlOrId
  {
    if IsVideoId(urlOrId) then urlOrId
    else
      match FirstMatch(Patterns, urlOrId)
      case Some(id) => id
      case None => urlOrId
  }

  /** Extracting again changes nothing. */
  lemma ExtractIdempotent(urlOrId: string)
    ensures ExtractVideoId(ExtractVideoId(urlOrId)) == ExtractVideoId(urlOrId)
  {
  }

  /** The characters that tell the alternatives apart. */
  lemma PrefixFacts()
    ensures forall k :: 0 <= k < |Prefixes| ==> |Prefixes[k]| > 12 || k == 1
    ensures forall k :: 0 <= k < |Prefixes| ==> Prefixes[k][0] == 'y'
    ensures WatchPrefix[5] == 'b' && ShortPrefix[5] == '.' && EmbedPrefix[5] == 'b'
    ensures WatchPrefix[12] == 'w' && EmbedPrefix[12] == 'e'
  {
  }

  /** A position inside a matched literal holds the literal's character. */
  lemma CharOfMatch(s: string, p: string, i: nat, n: nat)
    ensures i + |p| <= |s| && s[i..i + |p|] == p && n < |p| ==> s[i + n] == p[n]
  {
    if i + |p| <= |s| && n < |p| {
      assert s[i..i + |p|][n] == s[i + n];
    }
  }

  /** No two alternatives match at the same position. */
  lemma AlternativesExclusive(s: string, i: nat, m: nat, k: nat)
    requires m < k < |Prefixes|
    ensures !(AlternativeAt(s, Prefixes[m], i) && AlternativeAt(s, Prefixes[k], i))
  {
    PrefixFacts();
    var n := if m == 0 && k == 2 then 12 else 5;
    CharOfMatch(s, Prefixes[m], i, n);
    CharOfMatch(s, Prefixes[k], i, n);
  }

  /** No alternative matches where the text holds no 'y'. */
  lemma NoAlternativeWithoutY(s: string, j: nat)
    requires j < |s| && s[j] != 'y'
    ensures MatchAt(s, j).None?
  {
    PrefixFacts();
    forall m | 0 <= m < |Prefixes|
      ensures !AlternativeAt(s, Prefixes[m], j)
    {
      CharOfMatch(s, Prefixes[m], j, 0);
    }
  }

  /** Nothing matches within a stretch of text that holds no 'y'. */
  lemma NoMatchBefore(s: string, n: nat)
    requires n <= |s|
    requires forall j :: 0 <= j < n ==> s[j] != 'y'
    ensures forall j :: 0 <= j < n ==> MatchAt(s, j).None?
  {
    forall j | 0 <= j < n
      ensures MatchAt(s, j).None?
    {
      NoAlternativeWithoutY(s, j);
    }
  }

  /** A search from `i` reports the first position at or after `i` where
      the pattern matches. */
  lemma {:induction false} SearchFindsFirst(s: string, i: nat, j: nat)
    requires i <= j <= |s|
    requires forall j' :: i <= j' < j ==> MatchAt(s, j').None?
    requires MatchAt(s, j).Some?
    ensures SearchFrom(s, i) == MatchAt(s, j)
    decreases j - i
  {
    if i < j {
      SearchFindsFirst(s, i + 1, j);
    }
  }

  /** A text that is not itself an id yields the group of the leftmost
      match of the URL pattern. */
  lemma ExtractLeftmost(urlOrId: string, j: nat)
    requires !IsVideoId(urlOrId)
    requires j <= |urlOrId|
    requires forall j' :: 0 <= j' < j ==> MatchAt(urlOrId, j').None?
    requires MatchAt(urlOrId, j).Some?
    ensures ExtractVideoId(urlOrId) == MatchAt(urlOrId, j).value
  {
    SearchFindsFirst(urlOrId, 0, j);
  }

  /** Where alternative k is followed by an id, the pattern captures that id. */
  lemma MatchAfterLead(lead: string, k: nat, id: string, trail: string)
    requires k < |Prefixes|
    requires IsVideoId(id)
    ensures MatchAt(lead + Prefixes[k] + id + trail, |lead|) == Some(id)
  {
    var p := Prefixes[k];
    var s := lead + p + id + trail;
    var i := |lead|;
    assert s[i..i + |p|] == p;
    assert s[i + |p|..i + |p| + 11] == id;
    assert AlternativeAt(s, p, i);
    forall m | 0 <= m < k
      ensures !AlternativeAt(s, Prefixes[m], i)
    {
      AlternativesExclusive(s, i, m, k);
    }
    FirstAlternativePicks(s, Prefixes, i, k);
  }

  /** Text without a 'y' in front of one of the URL prefixes and an id: the
      id is what is extracted, whatever follows it. */
  lemma ExtractAfterPrefix(lead: string, k: nat, id: string, trail: string)
    requires 'y' !in lead
    requires k < |Prefixes|
    requires IsVideoId(id)
    ensures ExtractVideoId(lead + Prefixes[k] + id + trail) == id
  {
    var s := lead + Prefixes[k] + id + trail;
    assert forall j :: 0 <= j < |lead| ==> s[j] == lead[j];
    NoMatchBefore(s, |lead|);
    MatchAfterLead(lead, k, id, trail);
    assert |s| > 11;
    ExtractLeftmost(s, |lead|);
  }

  /** The page URL of the embedded player, before `/embed/`. */
  const PlayerHost := "https://www."

  /** `https://www.youtube.com/embed/${id}?rel=0` */
  function EmbedSrc(videoId: string): string {
    PlayerUrl(ExtractVideoId(videoId))
  }

  function PlayerUrl(id: string): string {
    PlayerHost + EmbedPrefix + id + "?rel=0"
  }

  /** The id of an embed URL is the id it was built from. */
  lemma PlayerUrlRoundTrip(id: string)
    requires IsVideoId(id)
    ensures ExtractVideoId(PlayerUrl(id)) == id
  {
    assert 'y' !in PlayerHost by {
      assert forall c :: c in PlayerHost ==> c in {'h', 't', 'p', 's', ':', '/', 'w', '.'};
    }
    ExtractAfterPrefix(PlayerHost, 2, id, "?rel=0");
  }

  /** The player URL leads back to the id it was built from: extracting from
      it gives the same id whenever the input yielded one. */
  lemma EmbedSrcRoundTrip(videoId: string)
    requires IsVideoId(ExtractVideoId(videoId))
    ensures ExtractVideoId(EmbedSrc(videoId)) == ExtractVideoId(videoId)
  {
    PlayerUrlRoundTrip(ExtractVideoId(videoId));
  }
}
