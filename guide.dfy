/**
 * The programme guide's per-streamer data (`get_stream_title` and the
 * programme window of `generate_xmltv` in app/twitch_streamlink_proxy.py).
 * Times are abstract seconds; the XML serialisation and date formatting are
 * not modelled.
 */
module Guide {
  import opened Wrappers
  import opened TwitchApi
  import Playlist

  const OfflineTitle: string := "offline"

  /** The guide's programme length: two hours. */
  const ProgrammeSeconds: int := 2 * 60 * 60

  function FallbackTitle(name: string): string {
    "Live-Stream von " + name
  }

  /**
   * `get_stream_title`: a non-empty live title as is; "offline" when the
   * streamer is offline or the title is empty (Python treats "" as false);
   * a fixed fallback naming the streamer when the lookup raised.
   */
  function StreamTitle(name: string, lookup: Result<Option<string>, ApiError>): (title: string)
    ensures title != []
  {
    match lookup
    case Failure(_) => FallbackTitle(name)
    case Success(None) => OfflineTitle
    case Success(Some(t)) => if t != [] then t else OfflineTitle
  }

  /**
   * The title reads "offline" exactly when the lookup succeeded with no
   * title, an empty title, or the title "offline". A failed lookup gives the
   * fallback naming the streamer, and a non-empty live title is kept as is.
   */
  lemma OfflineTitleMeaning(name: string, lookup: Result<Option<string>, ApiError>)
    ensures StreamTitle(name, lookup) == OfflineTitle <==>
              lookup.Success? && (lookup.value.None? || lookup.value.value in {[], OfflineTitle})
    ensures lookup.Failure? ==> StreamTitle(name, lookup) == FallbackTitle(name)
    ensures lookup.Success? && lookup.value.Some? && lookup.value.value != [] ==> StreamTitle(name, lookup) == lookup.value.value
  {
    if lookup.Failure? {
      assert FallbackTitle(name)[0] == 'L' && OfflineTitle[0] == 'o';
    }
  }

  /** The guide and the playlist disagree on an empty live title: the playlist shows it online, the guide "offline". */
  lemma EmptyTitleDisagreement(name: string)
    ensures Playlist.Glyph(Success(Some([]))) == Playlist.OnlineGlyph
    ensures StreamTitle(name, Success(Some([]))) == OfflineTitle
  {
  }

  datatype Programme = Programme(channel: string, title: string, start: int, stop: int, desc: string)

  /**
   * The `programme` element of one streamer, generated at time `now`: it
   * starts when the stream started, or now, and stops two hours after now,
   * so a stream that started in the past is on air at `now` for at least two
   * hours, and an offline streamer's programme lasts exactly two hours. The
   * start-time lookup is not guarded, so its failure aborts the guide.
   */
  function GuideProgramme(name: string, titleLookup: Result<Option<string>, ApiError>,
                          startLookup: Result<Option<int>, ApiError>, now: int): (r: Result<Programme, ApiError>)
    ensures r.Failure? <==> startLookup.Failure?
    ensures r.Failure? ==> r.error == startLookup.error
    ensures r.Success? ==> r.value.channel == name && r.value.title != [] && r.value.stop - now == ProgrammeSeconds
    ensures r.Success? ==> r.value.title == StreamTitle(name, titleLookup)
    ensures r.Success? && startLookup.value.Some? ==> r.value.start == startLookup.value.value
    ensures r.Success? && startLookup.value.None? ==> r.value.stop - r.value.start == ProgrammeSeconds
    ensures r.Success? && (startLookup.value.Some? ==> startLookup.value.value <= now) ==>
              r.value.start <= now < r.value.stop && r.value.stop - r.value.start >= ProgrammeSeconds
  {
    match startLookup
    case Failure(e) => Failure(e)
    case Success(started) =>
      var start := if started.Some? then started.value else now;
      Success(Programme(name, StreamTitle(name, titleLookup), start, now + ProgrammeSeconds,
                        "Dies ist der Live-Stream von " + name + " auf Twitch."))
  }

  /** A streamer that is not live gets an "offline" programme starting at generation time and lasting two hours. */
  lemma OfflineStreamerProgramme(name: string, now: int)
    ensures var p := GuideProgramme(name, Success(None), Success(None), now);
            p.Success? && p.value.title == OfflineTitle && p.value.start == now && p.value.stop - p.value.start == 7200
  {
  }
}
