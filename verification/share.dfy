/** The match page's `saveOrShare`: capture the match card, turn the canvas
    into a PNG blob, offer it to the Web Share API when the browser says it
    can take it, and otherwise, or when sharing fails for any reason,
    download it through a temporary object URL. The browser's answers are
    inputs; what the function asks of the browser is its effect trace. */
module Share {
  import opened Optional

  datatype File = File(name: string, mimeType: string)

  /** The one file every share and download carries. */
  const MatchFile: File := File("match.png", "image/png")

  const CaptureScale: nat := 2
  const ShareTitle: string := "It's a Match!"
  const ShareText: string := "We matched!"

  /** The browser's answers, in the order the dispatcher asks for them:
      whether the capture target is mounted, whether `toBlob` produced a
      blob, whether `navigator.canShare` exists and what it answers for the
      file list, and whether `navigator.share` resolves. A missing
      `navigator.share` throws when called, which is `shareResolves == false`. */
  datatype Platform = Platform(
    hasTarget: bool,
    blobPresent: bool,
    canShare: Option<bool>,
    shareResolves: bool)

  /** A call the dispatcher makes into the browser. */
  datatype Effect =
    | Capture(scale: nat)
    | ToBlob
    | QueryCanShare(files: seq<File>)
    | InvokeShare(files: seq<File>, title: string, text: string)
    | WarnShareFailed
    | CreateObjectUrl
    | ClickDownload(filename: string)
    | RevokeObjectUrl

  datatype Outcome = NoOp | Shared | Downloaded

  datatype Dispatch = Dispatch(outcome: Outcome, trace: seq<Effect>)

  /** The download fallback: a temporary URL, an anchor click, and the URL
      released again. */
  const DownloadEffects: seq<Effect> := [CreateObjectUrl, ClickDownload(MatchFile.name), RevokeObjectUrl]

  predicate SharesIn(trace: seq<Effect>)
  {
    exists i :: 0 <= i < |trace| && trace[i].InvokeShare?
  }

  predicate DownloadsIn(trace: seq<Effect>)
  {
    exists i :: 0 <= i < |trace| && trace[i].ClickDownload?
  }

  /** Every file offered, queried or downloaded is `match.png` as
      `image/png`. */
  predicate OnlyMatchFile(trace: seq<Effect>)
  {
    forall i :: 0 <= i < |trace| ==>
      (trace[i].QueryCanShare? ==> trace[i].files == [MatchFile])
      && (trace[i].InvokeShare? ==> trace[i].files == [MatchFile])
      && (trace[i].ClickDownload? ==> trace[i].filename == MatchFile.name)
  }

  /** Whether both channels are tried and the share one accepted the file. */
  predicate ShareWorks(p: Platform)
  {
    p.canShare == Some(true) && p.shareResolves
  }

  /** `saveOrShare` against the browser answers `p`. Something is delivered
      exactly when there is a target and a blob; it is shared exactly when,
      in addition, `canShare` accepts the file and `share` resolves, and it
      is downloaded in every other such case, whatever made sharing fail. */
  function SaveOrShare(p: Platform): (r: Dispatch)
    ensures !p.hasTarget ==> r == Dispatch(NoOp, [])
    ensures r.outcome == NoOp <==> !p.hasTarget || !p.blobPresent
    ensures r.outcome == Shared <==> p.hasTarget && p.blobPresent && ShareWorks(p)
    ensures r.outcome == Downloaded <==> p.hasTarget && p.blobPresent && !ShareWorks(p)
  {
    if !p.hasTarget then Dispatch(NoOp, [])
    else
      var captured := [Capture(CaptureScale), ToBlob];
      if !p.blobPresent then Dispatch(NoOp, captured)
      else
        var files := [MatchFile];
        var queried := captured + (if p.canShare.Some? then [QueryCanShare(files)] else []);
        if p.canShare == Some(true) then
          var offered := queried + [InvokeShare(files, ShareTitle, ShareText)];
          if p.shareResolves then Dispatch(Shared, offered)
          else Dispatch(Downloaded, offered + [WarnShareFailed] + DownloadEffects)
        else
          Dispatch(Downloaded, queried + DownloadEffects)
  }

  /** With a target, the page is captured at scale 2 and turned into a blob
      before anything else. */
  lemma CaptureComesFirst(p: Platform)
    requires p.hasTarget
    ensures |SaveOrShare(p).trace| >= 2
    ensures SaveOrShare(p).trace[..2] == [Capture(CaptureScale), ToBlob]
  {
  }

  /** Without a target or without a blob there is neither a share nor a
      download. */
  lemma NoBlobNoDelivery(p: Platform)
    requires !p.hasTarget || !p.blobPresent
    ensures !SharesIn(SaveOrShare(p).trace)
    ensures !DownloadsIn(SaveOrShare(p).trace)
  {
  }

  /** `share` is called exactly when there is a blob and `canShare` exists
      and accepts the file. */
  lemma ShareCalledIff(p: Platform)
    ensures SharesIn(SaveOrShare(p).trace) <==> p.hasTarget && p.blobPresent && p.canShare == Some(true)
  {
    var r := SaveOrShare(p);
    if p.hasTarget && p.blobPresent && p.canShare == Some(true) {
      assert r.trace[3].InvokeShare?;
    }
  }

  /** A resolved share ends the operation: no download follows. */
  lemma SharedMeansNoDownload(p: Platform)
    requires SaveOrShare(p).outcome == Shared
    ensures !DownloadsIn(SaveOrShare(p).trace)
  {
  }

  /** Every download ends with the object URL revoked right after the
      click. */
  lemma DownloadEndsWithRevoke(p: Platform)
    requires SaveOrShare(p).outcome == Downloaded
    ensures |SaveOrShare(p).trace| >= 3
    ensures SaveOrShare(p).trace[|SaveOrShare(p).trace| - 3..] == DownloadEffects
  {
  }

  /** Object URLs created and revoked balance out on every path. */
  lemma ObjectUrlsBalanced(p: Platform)
    ensures multiset(SaveOrShare(p).trace)[CreateObjectUrl]
         == multiset(SaveOrShare(p).trace)[RevokeObjectUrl]
  {
  }

  /** Only `match.png` as `image/png` is ever offered or downloaded. */
  lemma OnlyMatchPng(p: Platform)
    ensures OnlyMatchFile(SaveOrShare(p).trace)
  {
  }

  /** What an observer of the browser calls alone would conclude: a
      download click means the file was downloaded, otherwise a share call
      means it was shared, otherwise nothing was delivered. */
  function ObservedOutcome(trace: seq<Effect>): Outcome
  {
    if DownloadsIn(trace) then Downloaded
    else if SharesIn(trace) then Shared
    else NoOp
  }

  /** The outcome the dispatcher reports is the one its effects show. */
  lemma OutcomeMatchesEffects(p: Platform)
    ensures ObservedOutcome(SaveOrShare(p).trace) == SaveOrShare(p).outcome
  {
    var r := SaveOrShare(p);
    ShareCalledIff(p);
    match r.outcome
    case Downloaded =>
      DownloadEndsWithRevoke(p);
      assert r.trace[|r.trace| - 2].ClickDownload?;
    case Shared =>
      SharedMeansNoDownload(p);
    case NoOp =>
      NoBlobNoDelivery(p);
  }
}
