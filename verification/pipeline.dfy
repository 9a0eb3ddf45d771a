/**
 * Processing of one link (`run_tsar_and_import`): a link whose text contains
 * "playlist" first has its playlist name looked up; then the fetcher (tsar)
 * stages the link's audio in the import directory, and then the importer
 * moves it into the jellyfin library.
 *
 * The three collaborators are not modelled: each call is recorded as a
 * `Call` value holding its arguments, and whether it returns or raises is
 * given by a `LinkOutcome`. Any call that raises ends the attempt.
 */
module Pipeline {
  import opened Startup

  datatype Option<+T> = None | Some(value: T)

  /** A call to a collaborator, with the arguments it receives. */
  datatype Call =
    | ResolvePlaylistName(username: string, playlistId: string)
    | Fetch(outputDir: string, uri: string, cacheDir: string, username: string,
            librespotBinary: string, emptyPlaylist: bool, trackCountLimit: int)
    | Import(jellyfinUsername: string, jellyfinPassword: string, server: string,
             importDir: string, libraryDir: string, libraryId: string,
             emptyImportDir: bool, playlistName: Option<string>, failedLookupsPath: string)

  /** How the collaborators behave on one attempt: the name the resolver
      returns (None when it raises), and whether fetch and import return. */
  datatype LinkOutcome = LinkOutcome(resolvedName: Option<string>, fetchReturns: bool, importReturns: bool)

  /** The calls one attempt made, and whether it returned without raising. */
  datatype Attempted = Attempted(calls: seq<Call>, succeeded: bool)

  const PlaylistMarker := "playlist"
  const TrackCountLimit := 999

  /** `pattern` occurs in `s` starting at index `i`. */
  predicate OccursAt(s: string, pattern: string, i: nat)
  {
    i + |pattern| <= |s| && s[i..i + |pattern|] == pattern
  }

  /** Python's substring test `pattern in s`. */
  function Contains(s: string, pattern: string): (r: bool)
    ensures r <==> exists i: nat :: OccursAt(s, pattern, i)
    decreases |s|
  {
    if |s| < |pattern| then false
    else if s[..|pattern|] == pattern then assert OccursAt(s, pattern, 0); true
    else
      var r := Contains(s[1..], pattern);
      assert forall i: nat :: OccursAt(s, pattern, i + 1) == OccursAt(s[1..], pattern, i) by {
        forall i: nat ensures OccursAt(s, pattern, i + 1) == OccursAt(s[1..], pattern, i) {
          if i + 1 + |pattern| <= |s| {
            var m := |pattern|;
            var here, there := s[i + 1..i + 1 + m], s[1..][i..i + m];
            forall k | 0 <= k < m ensures here[k] == there[k] {
              assert there[k] == s[1..][i + k] == s[i + 1 + k];
            }
            assert here == there;
          }
        }
      }
      assert !OccursAt(s, pattern, 0);
      assert forall i: nat :: OccursAt(s, pattern, i) ==> i > 0 && OccursAt(s[1..], pattern, i - 1);
      r
  }

  /** A link names a playlist when its text contains the marker. */
  predicate IsPlaylist(uri: string)
  {
    Contains(uri, PlaylistMarker)
  }

  function FetchCall(cfg: Config, uri: string): Call
  {
    Fetch(ImportDir, uri, LibrespotCacheDir, cfg.spotifyUsername, LibrespotBinary, false, TrackCountLimit)
  }

  function ImportCall(cfg: Config, playlistName: Option<string>): Call
  {
    Import(cfg.jellyfinUsername, cfg.jellyfinPassword, cfg.jellyfinServer, ImportDir, LibraryDir,
           cfg.jellyfinLibraryId, true, playlistName, cfg.failedLookupsPath)
  }

  predicate Resolves(a: Attempted) { exists i :: 0 <= i < |a.calls| && a.calls[i].ResolvePlaylistName? }
  predicate Fetches(a: Attempted) { exists i :: 0 <= i < |a.calls| && a.calls[i].Fetch? }
  predicate Imports(a: Attempted) { exists i :: 0 <= i < |a.calls| && a.calls[i].Import? }

  /** The stage of a call: name lookup, then fetch, then import. */
  function Stage(c: Call): nat
  {
    match c
    case ResolvePlaylistName(_, _) => 0
    case Fetch(_, _, _, _, _, _, _) => 1
    case Import(_, _, _, _, _, _, _, _, _) => 2
  }

  /** One attempt at a link: look the playlist name up when the link is a
      playlist, then fetch, then import, stopping at the first call that raises. */
  function Attempt(cfg: Config, uri: string, outcome: LinkOutcome): Attempted
  {
    if IsPlaylist(uri) then
      var lookup := ResolvePlaylistName(cfg.spotifyUsername, uri);
      match outcome.resolvedName
      case None => Attempted([lookup], false)
      case Some(name) => FetchThenImport(cfg, uri, Some(name), outcome, [lookup])
    else
      FetchThenImport(cfg, uri, None, outcome, [])
  }

  function FetchThenImport(cfg: Config, uri: string, playlistName: Option<string>,
                           outcome: LinkOutcome, before: seq<Call>): Attempted
  {
    if !outcome.fetchReturns then Attempted(before + [FetchCall(cfg, uri)], false)
    else Attempted(before + [FetchCall(cfg, uri), ImportCall(cfg, playlistName)], outcome.importReturns)
  }

  /** The name is looked up exactly for playlist links, first, with the
      configured user and the link as playlist id. */
  lemma AttemptClassification(cfg: Config, uri: string, outcome: LinkOutcome)
    ensures var a := Attempt(cfg, uri, outcome);
      && (Resolves(a) <==> IsPlaylist(uri))
      && (Resolves(a) ==> a.calls[0] == ResolvePlaylistName(cfg.spotifyUsername, uri))
  {
    var a := Attempt(cfg, uri, outcome);
    if IsPlaylist(uri) {
      assert a.calls[0].ResolvePlaylistName?;
    }
  }

  /** Fetch runs unless the name lookup raised; import runs exactly when the
      fetch returned; the attempt returns exactly when every call it made
      returned. So a link is never imported without being fetched. */
  lemma AttemptCallsUntilFailure(cfg: Config, uri: string, outcome: LinkOutcome)
    ensures var a := Attempt(cfg, uri, outcome);
      && (Fetches(a) <==> !IsPlaylist(uri) || outcome.resolvedName.Some?)
      && (Imports(a) <==> Fetches(a) && outcome.fetchReturns)
      && (a.succeeded <==> Imports(a) && outcome.importReturns)
  {
    var a := Attempt(cfg, uri, outcome);
    var k := if IsPlaylist(uri) then 1 else 0;
    if !IsPlaylist(uri) || outcome.resolvedName.Some? {
      assert a.calls[k].Fetch?;
    }
    if Fetches(a) && outcome.fetchReturns {
      assert a.calls[k + 1].Import?;
    }
  }

  /** Calls come in stage order (lookup, fetch, import), each at most once:
      the fetch of a link always finishes before its import starts. */
  lemma AttemptStageOrder(cfg: Config, uri: string, outcome: LinkOutcome)
    ensures var a := Attempt(cfg, uri, outcome);
      forall i, j :: 0 <= i < j < |a.calls| ==> Stage(a.calls[i]) < Stage(a.calls[j])
  {
  }

  /** Every fetch is of this link into the import directory with empty
      playlists refused and at most 999 tracks; every import empties the import
      directory and carries the looked-up name for a playlist, and no name otherwise. */
  lemma AttemptFixedArguments(cfg: Config, uri: string, outcome: LinkOutcome)
    ensures var a := Attempt(cfg, uri, outcome);
      && (forall c :: c in a.calls && c.Fetch? ==>
            c == FetchCall(cfg, uri) && c.outputDir == ImportDir && !c.emptyPlaylist && c.trackCountLimit == 999)
      && (forall c :: c in a.calls && c.Import? ==>
            && c.emptyImportDir
            && c.playlistName == (if IsPlaylist(uri) then outcome.resolvedName else None)
            && c == ImportCall(cfg, c.playlistName))
  {
  }

  /** The calls made by attempting the given links in turn, the k-th attempt
      behaving as `outcomes(k)`. */
  function Trace(cfg: Config, uris: seq<string>, outcomes: nat -> LinkOutcome): seq<Call>
  {
    if uris == [] then []
    else
      var n := |uris| - 1;
      Trace(cfg, uris[..n], outcomes) + Attempt(cfg, uris[n], outcomes(n)).calls
  }

  /** Every one of the given links was attempted successfully, the k-th
      attempt behaving as `outcomes(k)`. */
  ghost predicate AllSucceeded(cfg: Config, uris: seq<string>, outcomes: nat -> LinkOutcome)
  {
    forall k :: 0 <= k < |uris| ==> Attempt(cfg, uris[k], outcomes(k)).succeeded
  }

  /** Attempting one more link appends that attempt's calls to the trace. */
  lemma TraceSnoc(cfg: Config, uris: seq<string>, uri: string, outcomes: nat -> LinkOutcome)
    ensures Trace(cfg, uris + [uri], outcomes) == Trace(cfg, uris, outcomes) + Attempt(cfg, uri, outcomes(|uris|)).calls
  {
    assert (uris + [uri])[..|uris|] == uris;
  }

  lemma AllSucceededSnoc(cfg: Config, uris: seq<string>, uri: string, outcomes: nat -> LinkOutcome)
    requires AllSucceeded(cfg, uris, outcomes)
    requires Attempt(cfg, uri, outcomes(|uris|)).succeeded
    ensures AllSucceeded(cfg, uris + [uri], outcomes)
  {
    forall k | 0 <= k < |uris| + 1
      ensures Attempt(cfg, (uris + [uri])[k], outcomes(k)).succeeded
    {
      if k < |uris| { assert (uris + [uri])[k] == uris[k]; }
    }
  }

  /** Each fetch recorded in a trace is for one of the attempted links and
      carries the fixed flags; in particular a link never attempted is never fetched. */
  lemma {:induction false} TraceFetches(cfg: Config, uris: seq<string>, outcomes: nat -> LinkOutcome)
    ensures forall c :: c in Trace(cfg, uris, outcomes) && c.Fetch? ==>
              c.uri in uris && !c.emptyPlaylist && c.trackCountLimit == TrackCountLimit
  {
    if uris != [] {
      var n := |uris| - 1;
      TraceFetches(cfg, uris[..n], outcomes);
      var a := Attempt(cfg, uris[n], outcomes(n));
      forall c | c in Trace(cfg, uris, outcomes) && c.Fetch?
        ensures c.uri in uris && !c.emptyPlaylist && c.trackCountLimit == TrackCountLimit
      {
        if c in a.calls {
          AttemptFixedArguments(cfg, uris[n], outcomes(n));
        } else {
          assert c in Trace(cfg, uris[..n], outcomes);
          assert c.uri in uris[..n];
        }
      }
    }
  }
}
