# Twitch streamlink proxy: verified model of the orchestration core

This project is a Dafny model of the bookkeeping at the heart of a small Flask
service. The service presents Twitch channels as a virtual TV lineup for
Jellyfin. It covers:

- **Proxy supervisor** (`ProxySupervisor`, proxy_supervisor.dfy): the
  `running_streams` table behind `GET /proxy/<streamer>`. It maps each
  streamer name to the local port of its streamlink proxy. An unseen name gets
  `base + len(running_streams)`, a known name reuses its port, and the reserved
  name `timestream` triggers a Jellyfin scan and is refused with 403. The class
  `ProxyTable` holds the table, the base port and a scan counter.
- **Change monitor** (`ChangeMonitor`, change_monitor.dfy): one cycle of
  `monitor_streamers`. A scan is triggered per streamer whose status is new or
  flipped. The poll becomes the next snapshot, and a failed poll reuses the
  previous snapshot. `Monitor` folds the cycle over a finite sequence of polls.
- **Twitch client** (`TwitchApi`, twitch_api.dfy): `get_online_status` splits
  the names into batches of at most 100 and fills a map from each batch's
  `user_login`s. The three single-user lookups share a 200/401/other dispatch.
  On a 401, the token and the `Authorization` header are refreshed in place
  and the call is restarted.
- **Registry** (`Registry`, registry.dfy): `remove_streamers` and
  `add_streamer` as list updates. Also how streamers.txt is written and read
  back.
- **Playlist and guide** (`Playlist`, playlist.dfy; `Guide`, guide.dfy):
  the `generate_m3u` line structure, the title fallback of `get_stream_title`,
  and the programme window of the guide.
- `Text` (text.dfy) models the Python `str` operations these use.
  `Wrappers` (wrappers.dfy) holds `Option` and `Result`.

The network is an input. Twitch answers are functions from the attempt number
(and the batch number) to a response: `Ok(data)` for 200, `Unauthorized` for
401, `Rejected(status)` for anything else. Token grants are a function from
the refresh number to `Granted(token)` or `Refused(status)`. The Jellyfin
notifier is a counter. The request's scheme, host name and host URL, and the
current time, are string or integer parameters.

Three behaviours of the code shape the model:
- After a 401, the Twitch client refreshes the token and calls itself again,
  with no bound on the number of restarts
  (app/jellyfin_twitch_api.py:53-56, :132-135). The model restarts up to a
  `fuel` bound.
- `stream_proxy` reads and extends `running_streams` without taking a lock
  (app/twitch_streamlink_proxy.py:76-82). The model runs requests one after
  another.
- `monitor_streamers` starts from an empty snapshot
  (app/twitch_streamlink_proxy.py:248). So the polls `{A: true}`, failure,
  `{A: false, B: true}` fire three scans in all: one for A in the first cycle,
  none for the failed poll, and two in the third cycle (`ThreeCycleExample`).

## Model

| member | source | states |
|---|---|---|
| `ProxySupervisor.ProxyTable.Resolve` | app/twitch_streamlink_proxy.py:66-91 | `timestream`: 403 with the fixed body, one more scan, table unchanged. An unseen name: the table gains exactly `name -> base + |table|` and the answer is a 302 to that port on the request's host. A known name: its stored port, table unchanged. In every case the table stays the replay of the request history. |
| `ProxySupervisor.ProxyTable.constructor` | app/twitch_streamlink_proxy.py:26 | The table starts empty, with no scans and no history. |
| `ProxySupervisor.ReplaySnoc` | app/twitch_streamlink_proxy.py:71-84 | One more request: the refresh name or a known name leaves the table as it was. An unseen name adds exactly `name -> base + |table|` and keeps every other entry. |
| `ProxySupervisor.RefreshNeverBound` | app/twitch_streamlink_proxy.py:71-74 | `timestream` never gets a port, whatever was requested before. |
| `ProxySupervisor.RedirectPortReadsBack` | app/twitch_streamlink_proxy.py:88-91 | The redirect location is the request's scheme, `://`, its host name, `:`, the port's decimal digits and `/`. Those digits read back as the bound port. |
| `ProxySupervisor.FirstSeen` | app/twitch_streamlink_proxy.py:71-82 | The bound names, in order of first request: no duplicates, never `timestream`, exactly the requested names other than `timestream`. |
| `ProxySupervisor.KthDistinctNameGetsKthPort` | app/twitch_streamlink_proxy.py:76-82 | After any sequence of requests, the bound names are exactly the distinct non-reserved names requested. The k-th of them (0-based) holds port `base + k`. |
| `ProxySupervisor.ReplayPortsAreDense` | app/twitch_streamlink_proxy.py:26-82 | After any sequence of requests, no two names share a port, and the ports in use are exactly `[base, base + |table|)`. |
| `ProxySupervisor.ResolveAsWritten` | app/twitch_streamlink_proxy.py:66-91 | As written, a request never changes the table. It raises `TypeError` exactly for an unbound name other than `timestream`, that is, exactly where the corrected binding would add an entry. A bound name is redirected to its stored port. |
| `ProxySupervisor.AsWrittenNoStreamerIsEverServed` | app/twitch_streamlink_proxy.py:31-77 | With the base port read as a string, the table stays empty forever, and every request for a streamer ends in `TypeError`. |
| `ChangeMonitor.Transitions` | app/twitch_streamlink_proxy.py:263-264 | Only polled names fire. A name present only in the previous snapshot never fires. |
| `ChangeMonitor.RunCycle` | app/twitch_streamlink_proxy.py:255-272 | One cycle. It fires one scan for each name of the current map that is new or flipped, and no others. The next snapshot is the current map. A failed poll fires nothing and keeps the snapshot. |
| `ChangeMonitor.Visit` | app/twitch_streamlink_proxy.py:263-269 | Visiting one streamer leaves strictly fewer to visit. The notified names stay exactly the new or flipped names among those visited, and the scan count stays their number. |
| `ChangeMonitor.UnchangedStatusFiresNothing` | app/twitch_streamlink_proxy.py:260-264 | Diffing a snapshot against itself fires nothing. |
| `ChangeMonitor.NoScanIffAgrees` | app/twitch_streamlink_proxy.py:263-269 | A cycle fires no scan iff every polled name was already in the snapshot with the same status. |
| `ChangeMonitor.ScansBoundedByPoll` | app/twitch_streamlink_proxy.py:263-269 | A cycle fires at most one scan per polled name. |
| `ChangeMonitor.Monitor` | app/twitch_streamlink_proxy.py:243-275 | Over a finite sequence of polls, it returns the per-cycle scan counts, their total and the final snapshot. Each agrees with the step-by-step replay from the empty snapshot. |
| `ChangeMonitor.FailedPollIsInvisible` | app/twitch_streamlink_proxy.py:258-260 | Removing a failed poll from any sequence changes neither the final snapshot nor the total scan count. |
| `ChangeMonitor.ThreeCycleExample` | app/twitch_streamlink_proxy.py:248-272 | The polls `{A: true}`, failure, `{A: false, B: true}` fire 1, 0 and 2 scans: 3 in all. |
| `TwitchApi.BatchSizes` | app/jellyfin_twitch_api.py:119-121 | There are ceil(n/100) batches, none for no names. Each batch holds 1 to 100 names, and all but the last hold exactly 100. |
| `TwitchApi.BatchesCoverInOrder` | app/jellyfin_twitch_api.py:120-121 | Concatenating the batches in order gives back the name list. |
| `TwitchApi.BatchesUpToIndex` | app/jellyfin_twitch_api.py:120-121 | Request j carries exactly the names at positions 100j up to 100j+100 (or the end). |
| `TwitchApi.BatchesUpToIsPrefix` | app/jellyfin_twitch_api.py:120-121 | The requests sent so far are a prefix of the full sequence of requests. |
| `TwitchApi.BatchOfIsQuotient` | app/jellyfin_twitch_api.py:120-121 | Position p lies in batch p / 100. |
| `TwitchApi.TwoHundredFiftyNames` | app/jellyfin_twitch_api.py:120-121 | 250 names are asked for in three requests of 100, 100 and 50. |
| `TwitchApi.MarksKeys` | app/jellyfin_twitch_api.py:130-131 | After the first n names are visited, the map's keys are exactly those names. |
| `TwitchApi.MarksValues` | app/jellyfin_twitch_api.py:126-131 | Each visited name maps to `True` iff it is a `user_login` in the 200 answer to the batch of its last visit. |
| `TwitchApi.FirstNotOk` | app/jellyfin_twitch_api.py:125-137 | The first batch whose answer is not a 200. Every earlier batch was answered 200. |
| `TwitchApi.RecordBatch` | app/jellyfin_twitch_api.py:126-131 | The inner loop over one 200-answered batch extends the map exactly as the batch's names require. |
| `TwitchApi.RequestBatch` | app/jellyfin_twitch_api.py:120-137 | One pass of the batch loop. It sends exactly the next batch. A 200 folds that batch's names into the map and the loop goes on. A 401 ends the attempt as expired, and any other status ends it as raised with that status; either way this was the first batch not answered 200. |
| `TwitchApi.AttemptCompletes` | app/jellyfin_twitch_api.py:125-139 | When every batch is answered 200, the attempt returns the map with every name visited. |
| `TwitchApi.QueryOnlineStatus` | app/jellyfin_twitch_api.py:116-139 | One attempt. The requests are the consecutive batches, in order, starting from the first. Its result is the full map when every batch is answered 200, otherwise 401/other at the first batch that is not. It stops right after that batch. |
| `TwitchApi.OnlineStatusAttempt` | app/jellyfin_twitch_api.py:116-139 | An attempt completes iff every batch is answered 200, and then its keys are exactly the input names. Otherwise some batch k is the first not answered 200, and the attempt is expired iff that answer is a 401, or raised with that answer's status. |
| `TwitchApi.Retry` | app/jellyfin_twitch_api.py:53-56 | A call makes at most `fuel` restarts. It ends in `RetriesExhausted` exactly when all of them were used and the last attempt expired too. A refused token ends it after an expired attempt, with restarts left. The same recursion is at :78-81, :102-105 and :132-135. |
| `TwitchApi.RetryEndsAtLastAttempt` | app/jellyfin_twitch_api.py:132-135 | Every attempt before the last expired and was followed by a granted token. The result is that of the last attempt alone, so partial results are discarded. The token in use is the last one granted. A `RequestFailed(s)` comes from a status-`s` answer. |
| `TwitchApi.OnlineStatusMeaning` | app/jellyfin_twitch_api.py:109-139 | On success, the keys are exactly the input names. Each name maps to `True` iff the last attempt's answer for its batch lists it as a `user_login`. |
| `TwitchApi.DistinctNamesStatus` | app/jellyfin_twitch_api.py:121-131 | With distinct names: on success, each name maps to `True` iff its own batch's answer lists it. |
| `TwitchApi.EmptyNamesNeedNoRequest` | app/jellyfin_twitch_api.py:117-139 | No names: an empty map on the first attempt, without a token refresh. |
| `TwitchApi.LookupMeaning` | app/jellyfin_twitch_api.py:47-58 | A lookup succeeds iff its last attempt was answered 200. It returns the first record's field, or `None` when `data` is empty. Any other status `s` raises with `s`. The same dispatch is repeated at :67-83 and :92-107. |
| `TwitchApi.TwitchClient.constructor` | app/jellyfin_twitch_api.py:11-17 | The headers carry the client id and `Bearer <token>`. |
| `TwitchApi.TwitchClient.RefreshToken` | app/jellyfin_twitch_api.py:20-34 | A grant replaces `access_token` and sets `Authorization` to `Bearer <token>`, with the other headers kept, as the 401 branches do at :54-55, :79-80, :103-104 and :133-134. A refusal raises and changes nothing. |
| `TwitchApi.TwitchClient.AfterAttempt` | app/jellyfin_twitch_api.py:132-137 | A 200 or another status ends the call with that attempt's outcome and no token change. A 401 with restarts left and a granted token sets the new token and header, and the call's outcome is that of the restarted call. A refused token or no restarts left ends the call with that error. The same dispatch is at :47-58. |
| `TwitchApi.TwitchClient.GetOnlineStatus` | app/jellyfin_twitch_api.py:109-139 | The result is the retry of batched attempts. The token is the last one granted, and the `Authorization` header is rebuilt from it. |
| `TwitchApi.TwitchClient.Lookup` | app/jellyfin_twitch_api.py:36-58 | The result is the retry of the single-request dispatch, with the same token and header update. |
| `Registry.RemovalKeepsExactly` | app/twitch_streamlink_proxy.py:280 | A name is kept iff it is registered and not in the removal list. Each kept name keeps its number of occurrences. |
| `Registry.RemovalPreservesOrder` | app/twitch_streamlink_proxy.py:280 | Removal distributes over concatenation, so kept names stay in their original order. |
| `Registry.RemovalIdempotent` | app/twitch_streamlink_proxy.py:280 | Removing the same names again changes nothing. |
| `Registry.AddStreamer` | app/twitch_streamlink_proxy.py:299-306 | The registry keeps every earlier name in place and grows by at most one. It grows exactly when the submission holds a non-white-space character. The added name is non-empty, stripped, and a slice of the submission with only white space around it. |
| `Registry.AddKeepsWellFormed` | app/twitch_streamlink_proxy.py:301-304 | Adding keeps every registered name non-empty and stripped. |
| `Registry.RemoveKeepsWellFormed` | app/twitch_streamlink_proxy.py:277-282 | Removing keeps every registered name non-empty and stripped. |
| `Registry.RemoveUndoesAdd` | app/twitch_streamlink_proxy.py:280-304 | Removing a just-added name gives the same registry as removing it before the add. |
| `Registry.RemoveAllLeavesEmptyName` | app/twitch_streamlink_proxy.py:277-282 | As written, removing every streamer writes `"\n"`, which reads back as the registry `[""]`. |
| `Registry.RemoveCoveredIsEmpty` | app/twitch_streamlink_proxy.py:280 | Removing a list that covers every registered name leaves nothing. |
| `Registry.LoneNewlineReadsAsEmptyName` | app/twitch_streamlink_proxy.py:282 | A file holding only `"\n"` reads back as one streamer named `""`. |
| `Registry.WriteRegistryAsWritten` | app/twitch_streamlink_proxy.py:282 | The file always ends with a newline. No names give a lone newline. For a non-empty list it is one name per newline-terminated line. |
| `Registry.ReadLinesMeaning` | app/twitch_streamlink_proxy.py:172 | `readlines()` gives no lines iff the file is empty. Put together, the lines give back the file. Each line is non-empty, holds a newline only as its last character, and every line but the last ends with one. |
| `Registry.StripAllMeaning` | app/twitch_streamlink_proxy.py:172 | Each name is its line's `strip()`, with no white space at either end. |
| `Registry.ReadRegistryMeaning` | app/twitch_streamlink_proxy.py:279 | Whatever the file holds, the registry has one name per line; each name is stripped and holds no newline. The same reader is at :119, :172, :253 and :295. |
| `Registry.RegistryRoundTrip` | app/twitch_streamlink_proxy.py:278-282 | Stripped, non-empty, single-line names written one per line read back (via `readlines` and `strip`) as the same list. |
| `Registry.AppendMatchesAddStreamer` | app/twitch_streamlink_proxy.py:301-304 | Appending `name + "\n"` to the file reads back as `AddStreamer` on the registry. |
| `Registry.RemoveRoundTrips` | app/twitch_streamlink_proxy.py:277-282 | With the corrected writer, the rewritten file reads back as exactly the kept names. |
| `Playlist.GenerateM3u` | app/twitch_streamlink_proxy.py:166-205 | The call succeeds iff every avatar lookup succeeds; otherwise the first failing one aborts it. For N names, the text is the lines joined by newlines. There are 2N+3 lines: `#EXTM3U` first, then per name k its `#EXTINF` entry numbered k+1 and `<base>/proxy/<name_k>`, then the time entry and `<base>/proxy/timestream`. `<base>` is the host URL without trailing `/`. |
| `Playlist.AddEntry` | app/twitch_streamlink_proxy.py:184-198 | For a streamer whose avatar lookup succeeded, it appends exactly its numbered entry line and its proxy link, and keeps the earlier lines. |
| `Playlist.EntryLogoAndGlyph` | app/twitch_streamlink_proxy.py:175-196 | In an entry line, the logo attribute sits right after `tvg-name="NN <name>" `, and the status glyph right before the final ` <name>`. The glyph is the online one iff the title lookup returned a title, even an empty one; the two glyphs differ. |
| `Playlist.LogoAttributeMeaning` | app/twitch_streamlink_proxy.py:175-182 | For `sparkofphoenixtv`, in any ASCII case, the entry's logo is the fixed image whatever the lookup returned. For any other name, the logo attribute is present iff the lookup returned a non-empty URL, and then it carries that URL. |
| `Playlist.OverrideIgnoresCase` | app/twitch_streamlink_proxy.py:177-178 | `SparkOfPhoenixTV` gets the fixed image, whatever the lookup returned. |
| `Playlist.LogoAttribute` | app/twitch_streamlink_proxy.py:179-182 | The attribute is present iff the URL is non-empty, and then the URL sits between `tvg-logo="` and the closing quote. |
| `Playlist.Glyph` | app/twitch_streamlink_proxy.py:185-193 | The glyph is one of the two markers. It is the online one iff the title lookup succeeded with a title; a failed lookup counts as offline. |
| `Playlist.ProxyLink` | app/twitch_streamlink_proxy.py:197 | The link is the base URL, then `/proxy/`, then exactly the name. |
| `Playlist.EntryNumbering` | app/twitch_streamlink_proxy.py:196 | The `tvg-name` number has at least two digits and reads back as the entry's 1-based position. |
| `Guide.StreamTitle` | app/twitch_streamlink_proxy.py:93-104 | The title is never empty; what it is, case by case, is stated by `OfflineTitleMeaning`. |
| `Guide.OfflineTitleMeaning` | app/twitch_streamlink_proxy.py:93-104 | The title reads `offline` iff the lookup succeeded with no title, an empty title or the title `offline`. A failed lookup gives `Live-Stream von <name>` (:102-104). A non-empty live title is returned unchanged (:96-98). |
| `Guide.EmptyTitleDisagreement` | app/twitch_streamlink_proxy.py:96-101 | An empty live title is `offline` in the guide, though the playlist (:190) shows that streamer online. |
| `Guide.GuideProgramme` | app/twitch_streamlink_proxy.py:128-140 | A failed start-time lookup aborts with its error. Otherwise the programme is on the streamer's channel, its title is `get_stream_title`'s result (never empty), it starts at the reported start when there is one, and it stops two hours after now. A stream that started at or before now is on air at now and for at least two hours. An offline streamer's programme lasts exactly two hours. |
| `Guide.OfflineStreamerProgramme` | app/twitch_streamlink_proxy.py:128-139 | A streamer that is not live gets an `offline` programme. It starts at generation time and lasts two hours. |
| `Text.Strip` | app/twitch_streamlink_proxy.py:301 | `strip()` leaves no white space at either end and only keeps characters of its input. |
| `Text.StripRemovesOnlySpace` | app/twitch_streamlink_proxy.py:301 | The input is white space, then its `strip()`, then white space. |
| `Text.StripIdempotent` | app/twitch_streamlink_proxy.py:119 | Stripping twice is stripping once. |
| `Text.RStrip` | app/twitch_streamlink_proxy.py:168 | `rstrip('/')` drops exactly the trailing slashes. |
| `Text.NatToString` | app/twitch_streamlink_proxy.py:90 | The port is written as decimal digits with no leading zero, and they read back as the port. |
| `Text.Pad2` | app/twitch_streamlink_proxy.py:196 | `{id:02d}` gives at least two digits that read back as the id. |

## Left out

- Process plumbing is not modelled: the streamlink subprocess, its 4-second settle delay, the daemon threads, `time.sleep(300)`, and the endless monitor loop. `Monitor` folds one cycle over a finite sequence of polls.
- The race on `running_streams` is not modelled: the source takes no lock, so all calls are sequential.
- Flask routing, `redirect`, `send_file`, `render_template` and `urlparse(request.host_url)` are left out. The scheme, host name, host URL and current time are parameters. A missing host name (rendered `None`) is not modelled.
- The Twitch and Jellyfin HTTP calls are inputs. `get_oauth_token` is a granted or refused token. `trigger_jellyfin_scan` is a counter increment; its POST status is only logged by the source.
- `TwitchApi.TwitchClient.GetOnlineStatus`: the source restarts after every 401 without bound. The model allows at most `fuel` restarts and reports `RetriesExhausted` beyond them.
- `TwitchApi.TwitchClient.constructor`: the initial `get_oauth_token` call is not modelled, so the first token is a parameter; a refusal at start-up is not modelled.
- `TwitchApi.TwitchClient.Lookup`: as for `GetOnlineStatus`, restarts are bounded by `fuel`. The ISO-8601 parse of `started_at` is not modelled; a start time is an abstract integer.
- `generate_xmltv` is modelled per streamer only (`Guide.GuideProgramme`). The ElementTree document, the `strftime`/`pytz` formatting and the delete-then-regenerate file step are left out.
- `Registry.AddStreamer` / `Registry.AppendMatchesAddStreamer`: a submission with an inner `\n` or `\r` is one entry for `AddStreamer`, but once appended to the file every reader (app/twitch_streamlink_proxy.py:119, :172, :253, :279) splits it into two or more streamers. `AppendMatchesAddStreamer` therefore requires a one-line submission, and the model does not state what the reader sees for any other.
- File I/O is left out except the registry file's text: the streamers.txt existence check, the temporary m3u file and the XMLTV file. `Registry.ReadLines` splits on `\n` only. Universal-newline translation of `\r` is not modelled, so the round-trip lemmas require names without `\r` or `\n`.
- `Text.Lower`: Python's `str.lower()` is Unicode-wide; the model lowers ASCII letters only.
- `add_streamer` and `remove_selected_streamers` also call `generate_m3u` and discard its result. Only the list update is modelled. A missing `streamer` form field (`None.strip()` raises) is not modelled.
- The `BASE_STREAMLINK_PORT` value is taken as a natural number in `ProxyTable`. Parsing it with `int()` is the correction, not the code.
- `view_logs`, `index`, `trigger_jellyfin_scan_route` and `example_usage` are UI and demo code, and are left out.

## Findings

| source | as written | input that shows it | evidently intended | confidence | as-written member | corrected member |
|---|---|---|---|---|---|---|
| app/twitch_streamlink_proxy.py:31-77 | `BASE_STREAMLINK_PORT` is the string from `os.getenv`, and line 77 adds `len(running_streams)` to it, which raises `TypeError` | any first request `GET /proxy/foo`, with or without the environment variable set | the base port as an integer, `int(BASE_STREAMLINK_PORT) + len(running_streams)` | high (Python `str + int`); not executed | `ProxySupervisor.ResolveAsWritten` (lemma `AsWrittenNoStreamerIsEverServed`) | `ProxySupervisor.ProxyTable.Resolve` (lemmas `KthDistinctNameGetsKthPort`, `ReplayPortsAreDense`) |
| app/twitch_streamlink_proxy.py:277-282 | after removing every streamer, the file holds `"\n"`, and every reader (`line.strip()` over `readlines()`) sees one streamer named `""` | registry `["a"]`, remove `["a"]` | an empty registry; write one name per newline-terminated line | high (Python `str.join` and `readlines`); not executed | `Registry.WriteRegistryAsWritten` (lemma `RemoveAllLeavesEmptyName`) | `Registry.WriteRegistry` (lemmas `RegistryRoundTrip`, `RemoveRoundTrips`) |
