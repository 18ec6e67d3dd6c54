/**
 * `generate_m3u` (app/twitch_streamlink_proxy.py): the M3U playlist with one
 * entry per registered streamer and a trailing refresh entry. The host URL,
 * the current local time (`%H:%M`) and the two Twitch lookups are inputs.
 */
module Playlist {
  import opened Wrappers
  import opened Text
  import opened TwitchApi

  const Header: string := "#EXTM3U"

  /** The one streamer whose avatar is replaced by a fixed image. */
  const OverrideName: string := "sparkofphoenixtv"
  const OverrideLogo: string := "https://encrypted-tbn1.gstatic.com/images?q=tbn:ANd9GcRaOqBSvY4P9dTVdexIZBrXx4zTMX1XYWWL2xgvUaep2eMWDwpW"

  const OnlineGlyph: string := "\U{1F7E2}"
  const OfflineGlyph: string := "\U{1F7E5}"

  /** The avatar URL: the fixed image for the override name, the looked-up one otherwise. */
  function LogoUrl(name: string, image: Option<string>): Option<string> {
    if Lower(name) == OverrideName then Some(OverrideLogo) else image
  }

  /** `tvg-logo="<url>"` for a non-empty URL, nothing otherwise. */
  function LogoAttribute(url: Option<string>): (attr: string)
    ensures attr != [] <==> url.Some? && url.value != []
    ensures attr != [] ==> |attr| == |url.value| + 11 && attr[10..|attr| - 1] == url.value
    ensures attr != [] ==> attr[..10] == "tvg-logo=\"" && attr[|attr| - 1] == '"'
  {
    if url.Some? && url.value != [] then
      var attr := "tvg-logo=\"" + url.value + "\"";
      assert attr[10..|attr| - 1] == url.value;
      assert attr[..10] == "tvg-logo=\"";
      attr
    else ""
  }

  /** Online when the title lookup answered with a title (even an empty one); a failed lookup counts as offline. */
  function Glyph(title: Result<Option<string>, ApiError>): (glyph: string)
    ensures glyph == OnlineGlyph || glyph == OfflineGlyph
    ensures glyph == OnlineGlyph <==> title.Success? && title.value.Some?
  {
    GlyphsDiffer();
    if title.Success? && title.value.Some? then OnlineGlyph else OfflineGlyph
  }

  /** The `#EXTINF` line of the streamer with 1-based number `id`, split around that number. */
  function EntryInfo(id: nat, name: string, logo: string, glyph: string): string {
    EntryPrefix(name) + Pad2(id) + EntrySuffix(name, logo, glyph)
  }

  function EntryPrefix(name: string): string {
    "#EXTINF:-1 tvg-id=\"" + Lower(name) + "\" tvg-name=\""
  }

  function EntrySuffix(name: string, logo: string, glyph: string): string {
    " " + name + "\" " + logo + " group-title=\"Twitch\"," + glyph + (" " + name)
  }

  /** The refresh entry's `#EXTINF` line, labelled with the current time. */
  function TimeEntry(currentTime: string): string {
    "#EXTINF:-1 tvg-id=\"time\" tvg-name=\"Time Stream\" group-title=\"Twitch\",Update " + currentTime
  }

  /** A playlist link into `GET /proxy/<name>`. */
  function ProxyLink(baseUrl: string, name: string): (link: string)
    ensures |link| == |baseUrl| + 7 + |name|
    ensures link[..|baseUrl|] == baseUrl && link[|baseUrl|..|baseUrl| + 7] == "/proxy/" && link[|baseUrl| + 7..] == name
  {
    var link := baseUrl + "/proxy/" + name;
    assert link[|baseUrl|..|baseUrl| + 7] == "/proxy/";
    assert link[|baseUrl| + 7..] == name;
    link
  }

  /** The entry of the streamer with 1-based number `id`, given its two lookups. */
  function Entry(id: nat, name: string, image: Option<string>, title: Result<Option<string>, ApiError>): string {
    EntryInfo(id, name, LogoAttribute(LogoUrl(name, image)), Glyph(title))
  }

  /**
   * `generate_m3u`: build the lines, then join them with newlines. A failing
   * avatar lookup is not caught and aborts the whole playlist; a failing title
   * lookup only marks the streamer offline.
   */
  method GenerateM3u(hostUrl: string, streamers: seq<string>,
                     profileImage: string -> Result<Option<string>, ApiError>,
                     streamTitle: string -> Result<Option<string>, ApiError>,
                     currentTime: string)
    returns (r: Result<string, ApiError>, lines: seq<string>)
    ensures r.Success? <==> forall k :: 0 <= k < |streamers| ==> profileImage(streamers[k]).Success?
    ensures r.Failure? ==>
              exists k :: 0 <= k < |streamers| && profileImage(streamers[k]) == Failure(r.error)
                && forall j :: 0 <= j < k ==> profileImage(streamers[j]).Success?
    ensures r.Success? ==>
              var baseUrl := RStrip(hostUrl, '/');
              var n := |streamers|;
              && r.value == Join(lines, "\n")
              && |lines| == 2 * n + 3
              && lines[0] == Header
              && (forall k :: 0 <= k < n ==>
                    && lines[2 * k + 1] == Entry(k + 1, streamers[k], profileImage(streamers[k]).value, streamTitle(streamers[k]))
                    && lines[2 * k + 2] == ProxyLink(baseUrl, streamers[k]))
              && lines[2 * n + 1] == TimeEntry(currentTime)
              && lines[2 * n + 2] == ProxyLink(baseUrl, "timestream")
  {
    var baseUrl := RStrip(hostUrl, '/');
    lines := [Header];
    var id := 1;
    var k := 0;
    while k < |streamers|
      invariant 0 <= k <= |streamers| && id == k + 1
      invariant |lines| == 2 * k + 1 && lines[0] == Header
      invariant Listed(lines, baseUrl, streamers, profileImage, streamTitle, k)
    {
      var name := streamers[k];
      var image := profileImage(name);
      if image.Failure? {
        assert profileImage(streamers[k]) == Failure(image.error);
        return Failure(image.error), lines;
      }
      lines := AddEntry(lines, baseUrl, streamers, profileImage, streamTitle, k, id);
      id := id + 1;
      k := k + 1;
    }
    var tail := [TimeEntry(currentTime), ProxyLink(baseUrl, "timestream")];
    ListedExtend(lines, tail, baseUrl, streamers, profileImage, streamTitle, k);
    lines := lines + tail;
    r := Success(Join(lines, "\n"));
  }

  /** The first `k` streamers had an avatar, and each has its entry and link at lines `2j + 1` and `2j + 2`. */
  ghost predicate Listed(lines: seq<string>, baseUrl: string, streamers: seq<string>,
                         profileImage: string -> Result<Option<string>, ApiError>,
                         streamTitle: string -> Result<Option<string>, ApiError>, k: nat)
  {
    && k <= |streamers| && 2 * k + 1 <= |lines|
    && forall j :: 0 <= j < k ==>
         && profileImage(streamers[j]).Success?
         && lines[2 * j + 1] == Entry(j + 1, streamers[j], profileImage(streamers[j]).value, streamTitle(streamers[j]))
         && lines[2 * j + 2] == ProxyLink(baseUrl, streamers[j])
  }

  /** Appending lines keeps the streamers listed so far. */
  lemma ListedExtend(lines: seq<string>, extra: seq<string>, baseUrl: string, streamers: seq<string>,
                     profileImage: string -> Result<Option<string>, ApiError>,
                     streamTitle: string -> Result<Option<string>, ApiError>, k: nat)
    requires Listed(lines, baseUrl, streamers, profileImage, streamTitle, k)
    ensures Listed(lines + extra, baseUrl, streamers, profileImage, streamTitle, k)
  {
    var all := lines + extra;
    forall j | 0 <= j < k
      ensures all[2 * j + 1] == lines[2 * j + 1] && all[2 * j + 2] == lines[2 * j + 2]
    {
    }
  }

  /** Appending streamer `k`'s entry and link lists it too. */
  lemma ListedStep(lines: seq<string>, baseUrl: string, streamers: seq<string>,
                   profileImage: string -> Result<Option<string>, ApiError>,
                   streamTitle: string -> Result<Option<string>, ApiError>, k: nat, entry: string, link: string)
    requires Listed(lines, baseUrl, streamers, profileImage, streamTitle, k) && |lines| == 2 * k + 1
    requires k < |streamers| && profileImage(streamers[k]).Success?
    requires entry == Entry(k + 1, streamers[k], profileImage(streamers[k]).value, streamTitle(streamers[k]))
    requires link == ProxyLink(baseUrl, streamers[k])
    ensures Listed(lines + [entry, link], baseUrl, streamers, profileImage, streamTitle, k + 1)
  {
    ListedExtend(lines, [entry, link], baseUrl, streamers, profileImage, streamTitle, k);
  }

  /** Streamer `k`, whose avatar lookup succeeded: its status lookup, its `#EXTINF` line and its proxy link. */
  method AddEntry(lines: seq<string>, baseUrl: string, streamers: seq<string>,
                  profileImage: string -> Result<Option<string>, ApiError>,
                  streamTitle: string -> Result<Option<string>, ApiError>, k: nat, id: nat)
    returns (lines': seq<string>)
    requires Listed(lines, baseUrl, streamers, profileImage, streamTitle, k) && |lines| == 2 * k + 1
    requires k < |streamers| && profileImage(streamers[k]).Success? && id == k + 1
    ensures Listed(lines', baseUrl, streamers, profileImage, streamTitle, k + 1)
    ensures |lines'| == 2 * k + 3 && lines'[..|lines|] == lines
  {
    var name := streamers[k];
    var title := streamTitle(name);
    var entry := Entry(id, name, profileImage(name).value, title);
    var link := ProxyLink(baseUrl, name);
    ListedStep(lines, baseUrl, streamers, profileImage, streamTitle, k, entry, link);
    lines' := lines + [entry, link];
  }

  lemma SliceOfMiddle(a: string, b: string, c: string)
    ensures (a + b + c)[..|a|] == a && (a + b + c)[|a|..|a| + |b|] == b
  {
  }

  /** Every entry's number is its 1-based position, written with at least two digits. */
  lemma EntryNumbering(id: nat, name: string, image: Option<string>, title: Result<Option<string>, ApiError>)
    ensures var e, p := Entry(id, name, image, title), EntryPrefix(name);
            && 2 <= |Pad2(id)| && |p| + |Pad2(id)| <= |e|
            && e[..|p|] == p
            && DigitsValue(e[|p|..|p| + |Pad2(id)|]) == id
  {
    SliceOfMiddle(EntryPrefix(name), Pad2(id), EntrySuffix(name, LogoAttribute(LogoUrl(name, image)), Glyph(title)));
  }

  /**
   * The avatar attribute of an entry: for the override name, in any case, the
   * fixed image whatever the lookup returned; for any other name, present
   * exactly when the lookup returned a non-empty URL, and then that URL.
   */
  lemma LogoAttributeMeaning(name: string, image: Option<string>)
    ensures Lower(name) == OverrideName ==>
              LogoAttribute(LogoUrl(name, image)) == "tvg-logo=\"" + OverrideLogo + "\""
    ensures Lower(name) != OverrideName ==>
              && (LogoAttribute(LogoUrl(name, image)) != [] <==> image.Some? && image.value != [])
              && (image.Some? && image.value != [] ==>
                    LogoAttribute(LogoUrl(name, image)) == "tvg-logo=\"" + image.value + "\"")
  {
  }

  /** The override ignores letter case: "SparkOfPhoenixTV" gets the fixed image too. */
  lemma OverrideIgnoresCase(name: string, image: Option<string>)
    requires name == "SparkOfPhoenixTV"
    ensures LogoAttribute(LogoUrl(name, image)) == "tvg-logo=\"" + OverrideLogo + "\""
  {
    var t := Lower(name);
    forall i | 0 <= i < |name|
      ensures t[i] == OverrideName[i]
    {
    }
    assert t == OverrideName;
  }

  /** Slices of a line made of five parts. */
  lemma FiveParts(a: string, logo: string, b: string, glyph: string, c: string)
    ensures var e := a + logo + b + glyph + c;
            && |e| == |a| + |logo| + |b| + |glyph| + |c|
            && e[|a|..|a| + |logo|] == logo
            && e[|a| + |logo| + |b|..|a| + |logo| + |b| + |glyph|] == glyph
            && e[|a| + |logo| + |b| + |glyph|..] == c
  {
    var e := a + logo + b + glyph + c;
    assert e[|a|..|a| + |logo|] == logo;
    assert e[|a| + |logo| + |b|..|a| + |logo| + |b| + |glyph|] == glyph;
    assert e[|a| + |logo| + |b| + |glyph|..] == c;
  }

  /** Within an entry's tail, the logo attribute follows ` <name>" ` and the glyph precedes the final ` <name>`. */
  lemma SuffixLayout(name: string, logo: string, glyph: string)
    ensures var t := EntrySuffix(name, logo, glyph);
            var p, q := |name| + 3, |t| - |name| - 1;
            && p + |logo| <= q - |glyph|
            && t[p..p + |logo|] == logo
            && t[q - |glyph|..q] == glyph
            && t[q..] == " " + name
  {
    FiveParts(" " + name + "\" ", logo, " group-title=\"Twitch\",", glyph, " " + name);
  }

  lemma ShiftedSlice(x: string, t: string, i: int, j: int)
    requires 0 <= i <= j <= |t|
    ensures (x + t)[|x| + i..|x| + j] == t[i..j] && (x + t)[|x| + i..] == t[i..]
  {
  }

  /** In an `#EXTINF` line, the logo attribute follows `tvg-name="NN <name>" ` and the glyph precedes the final ` <name>`. */
  lemma EntryInfoLayout(id: nat, name: string, logo: string, glyph: string)
    ensures var e := EntryInfo(id, name, logo, glyph);
            var p := |EntryPrefix(name)| + |Pad2(id)| + |name| + 3;
            var q := |e| - |name| - 1;
            && p + |logo| <= q - |glyph|
            && e[p..p + |logo|] == logo
            && e[q - |glyph|..q] == glyph
            && e[q..] == " " + name
  {
    var x, t := EntryPrefix(name) + Pad2(id), EntrySuffix(name, logo, glyph);
    SuffixLayout(name, logo, glyph);
    var p, q := |name| + 3, |t| - |name| - 1;
    ShiftedSlice(x, t, p, p + |logo|);
    ShiftedSlice(x, t, q - |glyph|, q);
    ShiftedSlice(x, t, q, |t|);
  }

  /**
   * Where the logo attribute and the status glyph sit in an entry line. The
   * line is online exactly when the title lookup returned a title (even an
   * empty one), and the two glyphs differ.
   */
  lemma EntryLogoAndGlyph(id: nat, name: string, image: Option<string>, title: Result<Option<string>, ApiError>)
    ensures var e, logo, glyph := Entry(id, name, image, title), LogoAttribute(LogoUrl(name, image)), Glyph(title);
            var p := |EntryPrefix(name)| + |Pad2(id)| + |name| + 3;
            var q := |e| - |name| - 1;
            && p + |logo| <= q - |glyph|
            && e[p..p + |logo|] == logo
            && e[q - |glyph|..q] == glyph
            && (glyph == OnlineGlyph <==> title.Success? && title.value.Some?)
            && OnlineGlyph != OfflineGlyph
  {
    EntryInfoLayout(id, name, LogoAttribute(LogoUrl(name, image)), Glyph(title));
    GlyphsDiffer();
  }

  /** The online and offline markers are different characters. */
  lemma GlyphsDiffer()
    ensures OnlineGlyph != OfflineGlyph
  {
    assert OnlineGlyph[0] != OfflineGlyph[0];
  }
}
