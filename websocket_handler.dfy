/**
 * The avatar stream registry: three tables keyed by stream id (open
 * sockets, cached animations, per-connection metadata), the playback of a
 * cached animation as a fixed sequence of messages, and the client-message
 * dispatch of the WebSocket endpoint.
 *
 * A socket is abstracted to a delivery budget: `budget` is the number of
 * socket-level sends that succeed before the socket breaks. Each operation
 * returns the messages that reached the client and what is left of the
 * budget. The clock reading `now` is a parameter and stands still during one
 * call.
 */
module Streams {
  import opened Wrappers
  import opened Text
  import opened Avatar

  /** A client socket: an opaque handle and the client's host, when known. */
  datatype Socket = Socket(handle: nat, clientHost: Option<string>)

  function ClientIp(socket: Socket): string {
    match socket.clientHost
    case Some(host) => host
    case None => "unknown"
  }

  datatype ConnectionMetadata = ConnectionMetadata(connectedAt: real, clientIp: string, framesSent: nat, lastActivity: real)

  /** An `animation_cache` entry: the animation summary plus the time it was cached. */
  datatype CacheEntry = CacheEntry(data: AnimationData, cachedAt: real)

  datatype ErrorCode = AnimationNotFound | NoAnimationData

  datatype ConnectionInfo = ConnectionInfo(streamId: string, connectedAt: real, framesSent: nat, clientIp: string)

  datatype StreamStats = StreamStats(activeConnections: nat, cachedAnimations: nat, totalFramesSent: nat,
                                     connections: set<ConnectionInfo>)

  /** The JSON messages the server sends, without their wall-clock timestamps. */
  datatype ServerMessage =
    | AnimationMetadata(streamId: string, totalDuration: real, frameCount: int, fps: nat, resolution: string,
                        glossInput: string, parsedWords: seq<string>)
    | FrameMessage(streamId: string, frame: AnimationFrame)
    | AnimationComplete(streamId: string, framesSent: nat, totalDuration: real)
    | ErrorMessage(streamId: string, code: ErrorCode, message: string)
    | Pong
    | Ping
    | Stats(stats: StreamStats)

  /**
   * What the client can do while the socket is open: send a JSON object
   * (with its "type", "unknown" when absent), send text that is not JSON,
   * send JSON that is not an object (its `.get` raises), let the receive
   * time out, or leave.
   */
  datatype ClientEvent = TextMessage(messageType: string) | InvalidJson | NonObjectJson | ReceiveTimeout | ClientDisconnected

  // ---------------------------------------------------------------------
  // Playback plan
  // ---------------------------------------------------------------------

  function MetadataMessage(streamId: string, d: AnimationData): ServerMessage {
    AnimationMetadata(streamId, d.totalDurationSeconds, d.frameCount, d.fps, d.resolution, d.glossInput, d.parsedWords)
  }

  function FrameMessages(streamId: string, frames: seq<AnimationFrame>): (r: seq<ServerMessage>)
    ensures |r| == |frames| && forall i :: 0 <= i < |frames| ==> r[i] == FrameMessage(streamId, frames[i])
  {
    seq(|frames|, i requires 0 <= i < |frames| => FrameMessage(streamId, frames[i]))
  }

  const NotFoundText: string := "Animation data not available"
  const NoFramesText: string := "No animation frames available"

  /**
   * Every message `stream_animation` tries to send, in order, to a socket
   * that never fails. The plan is never empty, and it opens with the
   * metadata exactly when the animation is cached.
   */
  function PlaybackPlan(streamId: string, cache: map<string, CacheEntry>): (r: seq<ServerMessage>)
    ensures r != [] && (r[0].AnimationMetadata? <==> streamId in cache)
  {
    if streamId !in cache then [ErrorMessage(streamId, AnimationNotFound, NotFoundText)]
    else
      var d := cache[streamId].data;
      [MetadataMessage(streamId, d)] +
      match d.videoData
      case None => [ErrorMessage(streamId, NoAnimationData, NoFramesText)]
      case Some(v) => FrameMessages(streamId, v.frames) + [AnimationComplete(streamId, |v.frames|, d.totalDurationSeconds)]
  }

  /**
   * The playback order: a missing animation yields only ANIMATION_NOT_FOUND;
   * otherwise the metadata comes first, then one message per decoded frame in
   * order and a completion that reports the number of decoded frames, or,
   * without video data, NO_ANIMATION_DATA right after the metadata.
   */
  lemma PlaybackOrder(streamId: string, cache: map<string, CacheEntry>)
    ensures var plan := PlaybackPlan(streamId, cache);
      && (streamId !in cache ==> plan == [ErrorMessage(streamId, AnimationNotFound, NotFoundText)])
      && (streamId in cache ==> plan[0] == MetadataMessage(streamId, cache[streamId].data))
      && (streamId in cache && cache[streamId].data.videoData.None? ==>
            plan == [MetadataMessage(streamId, cache[streamId].data), ErrorMessage(streamId, NoAnimationData, NoFramesText)])
      && (streamId in cache && cache[streamId].data.videoData.Some? ==>
            var d := cache[streamId].data; var frames := d.videoData.value.frames;
            && |plan| == |frames| + 2
            && (forall i :: 0 <= i < |frames| ==> plan[i + 1] == FrameMessage(streamId, frames[i]))
            && plan[|plan| - 1] == AnimationComplete(streamId, |frames|, d.totalDurationSeconds))
  {
    var plan := PlaybackPlan(streamId, cache);
    if streamId in cache && cache[streamId].data.videoData.Some? {
      var frames := cache[streamId].data.videoData.value.frames;
      forall i | 0 <= i < |frames| ensures plan[i + 1] == FrameMessage(streamId, frames[i]) {
        assert plan[i + 1] == FrameMessages(streamId, frames)[i];
      }
    }
  }

  // ---------------------------------------------------------------------
  // Delivery of a sequence of messages over a breakable socket
  // ---------------------------------------------------------------------

  function Min(a: nat, b: nat): nat {
    if a <= b then a else b
  }

  /** The metadata after `k` more messages were sent at time `now`. */
  function Bump(meta: ConnectionMetadata, k: nat, now: real): ConnectionMetadata {
    meta.(framesSent := meta.framesSent + k, lastActivity := if k > 0 then now else meta.lastActivity)
  }

  /**
   * Sending `plan` one message at a time, each through `send_animation_frame`,
   * from connection tables (active0, meta0) with `budget` successful sends
   * available, ends in (active1, meta1) having delivered `delivered`:
   * nothing happens to an unconnected stream; if the budget covers the plan
   * every message arrives and `frames_sent` grows by the plan's length;
   * otherwise the first `budget` messages arrive, the next send fails and
   * the stream is disconnected, and every later send is refused. Either
   * way what arrives is a prefix of the plan, one successful send each.
   */
  predicate Delivers(streamId: string, plan: seq<ServerMessage>, budget: nat, now: real,
                     active0: map<string, Socket>, meta0: map<string, ConnectionMetadata>,
                     active1: map<string, Socket>, meta1: map<string, ConnectionMetadata>,
                     delivered: seq<ServerMessage>, left: nat)
    ensures Delivers(streamId, plan, budget, now, active0, meta0, active1, meta1, delivered, left) ==>
      && |delivered| <= |plan| && delivered == plan[..|delivered|]
      && left + |delivered| == budget
  {
    if streamId !in active0 then
      delivered == [] && left == budget && active1 == active0 && meta1 == meta0
    else if |plan| <= budget then
      && delivered == plan && left == budget - |plan|
      && active1 == active0
      && streamId in meta0 && meta1 == meta0[streamId := Bump(meta0[streamId], |plan|, now)]
    else
      && delivered == plan[..budget] && left == 0
      && active1 == active0 - {streamId} && meta1 == meta0 - {streamId}
  }

  lemma BumpTwice(meta: ConnectionMetadata, a: nat, b: nat, now: real)
    ensures Bump(Bump(meta, a, now), b, now) == Bump(meta, a + b, now)
  {
  }

  /** Sending one plan and then another is sending their concatenation. */
  lemma DeliversCompose(streamId: string, p1: seq<ServerMessage>, p2: seq<ServerMessage>, budget: nat, now: real,
                        a0: map<string, Socket>, m0: map<string, ConnectionMetadata>,
                        a1: map<string, Socket>, m1: map<string, ConnectionMetadata>,
                        a2: map<string, Socket>, m2: map<string, ConnectionMetadata>,
                        d1: seq<ServerMessage>, l1: nat, d2: seq<ServerMessage>, l2: nat)
    requires Delivers(streamId, p1, budget, now, a0, m0, a1, m1, d1, l1)
    requires Delivers(streamId, p2, l1, now, a1, m1, a2, m2, d2, l2)
    ensures Delivers(streamId, p1 + p2, budget, now, a0, m0, a2, m2, d1 + d2, l2)
  {
    if streamId in a0 {
      if |p1| <= budget {
        if |p2| <= l1 {
          BumpTwice(m0[streamId], |p1|, |p2|, now);
          assert m2 == m0[streamId := Bump(m0[streamId], |p1 + p2|, now)];
        } else {
          assert m2 == m0 - {streamId};
          assert d1 + d2 == (p1 + p2)[..budget];
        }
      } else {
        assert d1 + d2 == (p1 + p2)[..budget];
      }
    }
  }

  /** What a stream that is gone, or was never there, does with any plan: nothing. */
  lemma DeliversNothing(streamId: string, plan: seq<ServerMessage>, budget: nat, now: real,
                        active: map<string, Socket>, meta: map<string, ConnectionMetadata>)
    requires streamId !in active
    ensures Delivers(streamId, plan, budget, now, active, meta, active, meta, [], budget)
  {
  }

  /** After a partial delivery the stream is no longer connected. */
  lemma PartialDeliveryDisconnects(streamId: string, plan: seq<ServerMessage>, budget: nat, now: real,
                                   a0: map<string, Socket>, m0: map<string, ConnectionMetadata>,
                                   a1: map<string, Socket>, m1: map<string, ConnectionMetadata>,
                                   delivered: seq<ServerMessage>, left: nat)
    requires Delivers(streamId, plan, budget, now, a0, m0, a1, m1, delivered, left)
    requires |delivered| < |plan|
    ensures streamId !in a1
  {
  }

  /** Delivery to one stream leaves every other stream's connection entries as they were. */
  lemma DeliversTouchesOnlyStream(streamId: string, plan: seq<ServerMessage>, budget: nat, now: real,
                                  a0: map<string, Socket>, m0: map<string, ConnectionMetadata>,
                                  a1: map<string, Socket>, m1: map<string, ConnectionMetadata>,
                                  delivered: seq<ServerMessage>, left: nat)
    requires Delivers(streamId, plan, budget, now, a0, m0, a1, m1, delivered, left)
    ensures a1 - {streamId} == a0 - {streamId} && m1 - {streamId} == m0 - {streamId}
    ensures |delivered| == Min(budget, |plan|) || streamId !in a0
  {
    if streamId in a0 && |plan| <= budget {
      assert m1 - {streamId} == m0 - {streamId};
    }
  }

  // ---------------------------------------------------------------------
  // Expiry and statistics
  // ---------------------------------------------------------------------

  const DefaultMaxAgeSeconds: int := 3600

  predicate Expired(entry: CacheEntry, now: real, maxAgeSeconds: int) {
    now - entry.cachedAt > maxAgeSeconds as real
  }

  /** The cache entries that are not older than `maxAgeSeconds` at time `now`. */
  function Unexpired(cache: map<string, CacheEntry>, now: real, maxAgeSeconds: int): map<string, CacheEntry> {
    map id | id in cache && !Expired(cache[id], now, maxAgeSeconds) :: cache[id]
  }

  /** Expiry removes exactly the entries strictly older than the limit and keeps the others unchanged. */
  lemma UnexpiredExactly(cache: map<string, CacheEntry>, now: real, maxAgeSeconds: int, id: string)
    ensures id in Unexpired(cache, now, maxAgeSeconds) <==> id in cache && now - cache[id].cachedAt <= maxAgeSeconds as real
    ensures id in Unexpired(cache, now, maxAgeSeconds) ==> Unexpired(cache, now, maxAgeSeconds)[id] == cache[id]
  {
  }

  ghost function PickKey(keys: set<string>): string
    requires keys != {}
  {
    var k :| k in keys; k
  }

  /** The sum of `frames_sent` over the metadata entries with ids in `keys`. */
  ghost function SumFrames(meta: map<string, ConnectionMetadata>, keys: set<string>): nat
    requires keys <= meta.Keys
    decreases keys
  {
    if keys == {} then 0
    else
      var k := PickKey(keys);
      meta[k].framesSent + SumFrames(meta, keys - {k})
  }

  /** The sum does not depend on the order in which keys are taken. */
  lemma {:induction false} SumFramesRemove(meta: map<string, ConnectionMetadata>, keys: set<string>, k: string)
    requires keys <= meta.Keys && k in keys
    ensures SumFrames(meta, keys) == meta[k].framesSent + SumFrames(meta, keys - {k})
    decreases keys
  {
    var p := PickKey(keys);
    if p != k {
      SumFramesRemove(meta, keys - {p}, k);
      SumFramesRemove(meta, keys - {k}, p);
      assert keys - {p} - {k} == keys - {k} - {p};
    }
  }

  function InfoOf(streamId: string, meta: ConnectionMetadata): ConnectionInfo {
    ConnectionInfo(streamId, meta.connectedAt, meta.framesSent, meta.clientIp)
  }

  function Infos(meta: map<string, ConnectionMetadata>, keys: set<string>): set<ConnectionInfo> {
    set id | id in keys && id in meta :: InfoOf(id, meta[id])
  }

  /** The statistics `get_stream_stats` reports for given tables. */
  ghost function StatsOf(active: map<string, Socket>, cache: map<string, CacheEntry>,
                         meta: map<string, ConnectionMetadata>): StreamStats
  {
    StreamStats(|active|, |cache|, SumFrames(meta, meta.Keys), Infos(meta, meta.Keys))
  }

  /** Frames sent over connections that have since closed no longer count. */
  lemma StatsForgetClosedStreams(meta: map<string, ConnectionMetadata>, streamId: string)
    requires streamId in meta
    ensures SumFrames(meta - {streamId}, (meta - {streamId}).Keys) == SumFrames(meta, meta.Keys) - meta[streamId].framesSent
  {
    SumFramesRemove(meta, meta.Keys, streamId);
    SumFramesSameEntries(meta, meta - {streamId}, meta.Keys - {streamId});
    assert (meta - {streamId}).Keys == meta.Keys - {streamId};
  }

  lemma {:induction false} SumFramesSameEntries(m1: map<string, ConnectionMetadata>, m2: map<string, ConnectionMetadata>,
                                                keys: set<string>)
    requires keys <= m1.Keys && keys <= m2.Keys
    requires forall k :: k in keys ==> m1[k] == m2[k]
    ensures SumFrames(m1, keys) == SumFrames(m2, keys)
    decreases keys
  {
    if keys != {} {
      var k := PickKey(keys);
      SumFramesSameEntries(m1, m2, keys - {k});
    }
  }

  // ---------------------------------------------------------------------
  // The registry
  // ---------------------------------------------------------------------

  /** `AvatarStreamManager`. */
  class StreamManager {
    var activeConnections: map<string, Socket>
    var animationCache: map<string, CacheEntry>
    var connectionMetadata: map<string, ConnectionMetadata>

    /** Every open connection has metadata and every metadata entry belongs to an open connection. */
    ghost predicate Valid()
      reads this
    {
      activeConnections.Keys == connectionMetadata.Keys
    }

    constructor ()
      ensures Valid()
      ensures activeConnections == map[] && animationCache == map[] && connectionMetadata == map[]
    {
      activeConnections := map[];
      animationCache := map[];
      connectionMetadata := map[];
    }

    /** `connect`: registers the socket with fresh metadata, replacing any earlier entry. */
    method Connect(websocket: Socket, streamId: string, now: real)
      requires Valid()
      modifies this
      ensures Valid()
      ensures activeConnections == old(activeConnections)[streamId := websocket]
      ensures connectionMetadata == old(connectionMetadata)[streamId := ConnectionMetadata(now, ClientIp(websocket), 0, now)]
      ensures animationCache == old(animationCache)
    {
      activeConnections := activeConnections[streamId := websocket];
      connectionMetadata := connectionMetadata[streamId := ConnectionMetadata(now, ClientIp(websocket), 0, now)];
    }

    /** `disconnect`: forgets the connection, keeps the cached animation; a no-op for an unknown id. */
    method Disconnect(streamId: string)
      requires Valid()
      modifies this
      ensures Valid()
      ensures activeConnections == old(activeConnections) - {streamId}
      ensures connectionMetadata == old(connectionMetadata) - {streamId}
      ensures animationCache == old(animationCache)
      ensures streamId !in old(activeConnections) ==> activeConnections == old(activeConnections)
    {
      if streamId in activeConnections {
        activeConnections := activeConnections - {streamId};
      }
      if streamId in connectionMetadata {
        connectionMetadata := connectionMetadata - {streamId};
      }
    }

    /** `store_animation_data`: caches the animation with the time it was stored. */
    method StoreAnimationData(streamId: string, animationData: AnimationData, now: real)
      requires Valid()
      modifies this
      ensures Valid()
      ensures animationCache == old(animationCache)[streamId := CacheEntry(animationData, now)]
      ensures activeConnections == old(activeConnections) && connectionMetadata == old(connectionMetadata)
    {
      animationCache := animationCache[streamId := CacheEntry(animationData, now)];
    }

    /**
     * `send_animation_frame`: one send through the socket, which succeeds
     * when `budget` is positive. Refused for an unconnected stream; on
     * success only that stream's `frames_sent` grows, by one; on failure
     * the stream is disconnected.
     */
    method SendAnimationFrame(streamId: string, frameData: ServerMessage, budget: nat, now: real) returns (ok: bool, left: nat)
      requires Valid()
      modifies this
      ensures Valid()
      ensures animationCache == old(animationCache)
      ensures streamId !in old(activeConnections) ==>
        !ok && left == budget && activeConnections == old(activeConnections) && connectionMetadata == old(connectionMetadata)
      ensures streamId in old(activeConnections) && budget > 0 ==>
        && ok && left == budget - 1 && activeConnections == old(activeConnections)
        && connectionMetadata == old(connectionMetadata)[streamId := Bump(old(connectionMetadata)[streamId], 1, now)]
      ensures streamId in old(activeConnections) && budget == 0 ==>
        && !ok && left == 0
        && activeConnections == old(activeConnections) - {streamId}
        && connectionMetadata == old(connectionMetadata) - {streamId}
      ensures Delivers(streamId, [frameData], budget, now, old(activeConnections), old(connectionMetadata),
                       activeConnections, connectionMetadata, if ok then [frameData] else [], left)
    {
      if streamId !in activeConnections {
        return false, budget;
      }
      if budget > 0 {
        if streamId in connectionMetadata {
          var meta := connectionMetadata[streamId];
          connectionMetadata := connectionMetadata[streamId := meta.(framesSent := meta.framesSent + 1, lastActivity := now)];
        }
        return true, budget - 1;
      } else {
        Disconnect(streamId);
        return false, 0;
      }
    }

    /** `send_error`: an error message sent like any other. */
    method SendError(streamId: string, errorCode: ErrorCode, errorMessage: string, budget: nat, now: real)
      returns (ok: bool, left: nat)
      requires Valid()
      modifies this
      ensures Valid()
      ensures animationCache == old(animationCache)
      ensures Delivers(streamId, [ErrorMessage(streamId, errorCode, errorMessage)], budget, now,
                       old(activeConnections), old(connectionMetadata), activeConnections, connectionMetadata,
                       if ok then [ErrorMessage(streamId, errorCode, errorMessage)] else [], left)
    {
      ok, left := SendAnimationFrame(streamId, ErrorMessage(streamId, errorCode, errorMessage), budget, now);
    }

    /**
     * The frame loop of `stream_animation`: one `animation_frame` message per
     * frame, in order, stopping at the first failed send.
     */
    method StreamFrames(streamId: string, frames: seq<AnimationFrame>, budget: nat, now: real)
      returns (delivered: seq<ServerMessage>, left: nat)
      requires Valid()
      modifies this
      ensures Valid()
      ensures animationCache == old(animationCache)
      ensures Delivers(streamId, FrameMessages(streamId, frames), budget, now,
                       old(activeConnections), old(connectionMetadata), activeConnections, connectionMetadata,
                       delivered, left)
    {
      delivered, left := [], budget;
      for i := 0 to |frames|
        invariant Valid() && animationCache == old(animationCache)
        invariant Delivers(streamId, FrameMessages(streamId, frames[..i]), budget, now,
                           old(activeConnections), old(connectionMetadata), activeConnections, connectionMetadata,
                           delivered, left)
      {
        var frameMessage := FrameMessage(streamId, frames[i]);
        ghost var aI, mI, dI, lI := activeConnections, connectionMetadata, delivered, left;
        var ok;
        ok, left := SendAnimationFrame(streamId, frameMessage, left, now);
        var sent := if ok then [frameMessage] else [];
        DeliversCompose(streamId, FrameMessages(streamId, frames[..i]), [frameMessage], budget, now,
                        old(activeConnections), old(connectionMetadata), aI, mI, activeConnections, connectionMetadata,
                        dI, lI, sent, left);
        assert FrameMessages(streamId, frames[..i + 1]) == FrameMessages(streamId, frames[..i]) + [frameMessage];
        delivered := delivered + sent;
        if !ok {
          PartialDeliveryDisconnects(streamId, [frameMessage], lI, now, aI, mI, activeConnections, connectionMetadata, sent, left);
          DeliversNothing(streamId, FrameMessages(streamId, frames[i + 1..]), left, now, activeConnections, connectionMetadata);
          DeliversCompose(streamId, FrameMessages(streamId, frames[..i + 1]), FrameMessages(streamId, frames[i + 1..]),
                          budget, now, old(activeConnections), old(connectionMetadata),
                          activeConnections, connectionMetadata, activeConnections, connectionMetadata,
                          delivered, left, [], left);
          assert FrameMessages(streamId, frames[..i + 1]) + FrameMessages(streamId, frames[i + 1..])
              == FrameMessages(streamId, frames);
          assert delivered + [] == delivered;
          return;
        }
      }
      assert frames[..|frames|] == frames;
    }

    /**
     * `stream_animation`: sends the playback plan of the cached animation,
     * stopping at the first failed send; nothing happens to an unconnected
     * stream.
     */
    method StreamAnimation(streamId: string, budget: nat, now: real) returns (delivered: seq<ServerMessage>, left: nat)
      requires Valid()
      modifies this
      ensures Valid()
      ensures animationCache == old(animationCache)
      ensures Delivers(streamId, PlaybackPlan(streamId, old(animationCache)), budget, now,
                       old(activeConnections), old(connectionMetadata), activeConnections, connectionMetadata,
                       delivered, left)
    {
      if streamId !in animationCache {
        var ok;
        ok, left := SendError(streamId, AnimationNotFound, NotFoundText, budget, now);
        delivered := if ok then [ErrorMessage(streamId, AnimationNotFound, NotFoundText)] else [];
        return;
      }
      if streamId !in activeConnections {
        return [], budget;
      }
      var animationData := animationCache[streamId].data;
      var metadataMessage := MetadataMessage(streamId, animationData);
      var ok;
      ok, left := SendAnimationFrame(streamId, metadataMessage, budget, now);
      delivered := if ok then [metadataMessage] else [];
      ghost var rest := PlaybackPlan(streamId, animationCache)[1..];
      assert PlaybackPlan(streamId, animationCache) == [metadataMessage] + rest;
      ghost var a1, m1, d1, l1 := activeConnections, connectionMetadata, delivered, left;
      if !ok {
        DeliversNothing(streamId, rest, left, now, activeConnections, connectionMetadata);
        DeliversCompose(streamId, [metadataMessage], rest, budget, now, old(activeConnections), old(connectionMetadata),
                        a1, m1, a1, m1, d1, l1, [], left);
        assert delivered + [] == delivered;
        return;
      }
      match animationData.videoData {
        case None =>
          var errorOk;
          errorOk, left := SendError(streamId, NoAnimationData, NoFramesText, left, now);
          var errorSent := if errorOk then [ErrorMessage(streamId, NoAnimationData, NoFramesText)] else [];
          DeliversCompose(streamId, [metadataMessage], rest, budget, now, old(activeConnections), old(connectionMetadata),
                          a1, m1, activeConnections, connectionMetadata, d1, l1, errorSent, left);
          delivered := delivered + errorSent;
        case Some(video) =>
          var frameMessages := FrameMessages(streamId, video.frames);
          var completionMessage := AnimationComplete(streamId, |video.frames|, animationData.totalDurationSeconds);
          assert rest == frameMessages + [completionMessage];
          var framesSent;
          framesSent, left := StreamFrames(streamId, video.frames, left, now);
          ghost var a2, m2, l2 := activeConnections, connectionMetadata, left;
          var completeOk;
          completeOk, left := SendAnimationFrame(streamId, completionMessage, left, now);
          var completeSent := if completeOk then [completionMessage] else [];
          DeliversCompose(streamId, frameMessages, [completionMessage], l1, now, a1, m1, a2, m2,
                          activeConnections, connectionMetadata, framesSent, l2, completeSent, left);
          DeliversCompose(streamId, [metadataMessage], rest, budget, now, old(activeConnections), old(connectionMetadata),
                          a1, m1, activeConnections, connectionMetadata, d1, l1, framesSent + completeSent, left);
          delivered := delivered + (framesSent + completeSent);
      }
    }

    /** `cleanup_expired_streams`: collects the expired ids, then deletes them from the cache. */
    method CleanupExpiredStreams(now: real, maxAgeSeconds: int := DefaultMaxAgeSeconds)
      requires Valid()
      modifies this
      ensures Valid()
      ensures animationCache == Unexpired(old(animationCache), now, maxAgeSeconds)
      ensures activeConnections == old(activeConnections) && connectionMetadata == old(connectionMetadata)
    {
      var expiredStreams: seq<string> := [];
      var pending := animationCache.Keys;
      while pending != {}
        invariant pending <= animationCache.Keys
        invariant unchanged(this)
        invariant forall id :: id in expiredStreams <==>
          id in animationCache && id !in pending && Expired(animationCache[id], now, maxAgeSeconds)
        decreases pending
      {
        var streamId :| streamId in pending;
        if Expired(animationCache[streamId], now, maxAgeSeconds) {
          expiredStreams := expiredStreams + [streamId];
        }
        pending := pending - {streamId};
      }
      ghost var cache0 := animationCache;
      for i := 0 to |expiredStreams|
        invariant animationCache == map id | id in cache0 && id !in expiredStreams[..i] :: cache0[id]
        invariant activeConnections == old(activeConnections) && connectionMetadata == old(connectionMetadata)
      {
        assert forall id :: id in expiredStreams[..i + 1] <==> id in expiredStreams[..i] || id == expiredStreams[i];
        animationCache := animationCache - {expiredStreams[i]};
      }
      assert expiredStreams[..|expiredStreams|] == expiredStreams;
    }

    /** `get_stream_stats`: table sizes, the sum of `frames_sent` over open connections, one entry per connection. */
    method GetStreamStats() returns (stats: StreamStats)
      ensures stats == StatsOf(activeConnections, animationCache, connectionMetadata)
    {
      var totalFramesSent := 0;
      var connections: set<ConnectionInfo> := {};
      var pending := connectionMetadata.Keys;
      while pending != {}
        invariant pending <= connectionMetadata.Keys
        invariant totalFramesSent + SumFrames(connectionMetadata, pending) == SumFrames(connectionMetadata, connectionMetadata.Keys)
        invariant connections + Infos(connectionMetadata, pending) == Infos(connectionMetadata, connectionMetadata.Keys)
        decreases pending
      {
        var streamId :| streamId in pending;
        SumFramesRemove(connectionMetadata, pending, streamId);
        var info := InfoOf(streamId, connectionMetadata[streamId]);
        assert Infos(connectionMetadata, pending) == {info} + Infos(connectionMetadata, pending - {streamId});
        totalFramesSent := totalFramesSent + connectionMetadata[streamId].framesSent;
        connections := connections + {info};
        pending := pending - {streamId};
      }
      stats := StreamStats(|activeConnections|, |animationCache|, totalFramesSent, connections);
    }

    /**
     * The reply to one client message in `handle_avatar_websocket`: "ping"
     * gets one "pong", "restart_animation" replays the animation,
     * "get_stats" gets one "stats" message, and anything else no reply.
     */
    method Dispatch(streamId: string, messageType: string, budget: nat, now: real)
      returns (delivered: seq<ServerMessage>, left: nat)
      requires Valid()
      modifies this
      ensures Valid()
      ensures animationCache == old(animationCache)
      ensures activeConnections - {streamId} == old(activeConnections) - {streamId}
      ensures connectionMetadata - {streamId} == old(connectionMetadata) - {streamId}
      ensures messageType == "ping" ==>
        Delivers(streamId, [Pong], budget, now, old(activeConnections), old(connectionMetadata),
                 activeConnections, connectionMetadata, delivered, left)
      ensures messageType == "restart_animation" ==>
        Delivers(streamId, PlaybackPlan(streamId, old(animationCache)), budget, now,
                 old(activeConnections), old(connectionMetadata), activeConnections, connectionMetadata, delivered, left)
      ensures messageType == "get_stats" ==>
        Delivers(streamId, [Stats(old(StatsOf(activeConnections, animationCache, connectionMetadata)))], budget, now,
                 old(activeConnections), old(connectionMetadata), activeConnections, connectionMetadata, delivered, left)
      ensures messageType != "ping" && messageType != "restart_animation" && messageType != "get_stats" ==>
        && delivered == [] && left == budget
        && activeConnections == old(activeConnections) && connectionMetadata == old(connectionMetadata)
    {
      if messageType == "ping" {
        var ok;
        ok, left := SendAnimationFrame(streamId, Pong, budget, now);
        delivered := if ok then [Pong] else [];
        DeliversTouchesOnlyStream(streamId, [Pong], budget, now, old(activeConnections), old(connectionMetadata),
                                  activeConnections, connectionMetadata, delivered, left);
      } else if messageType == "restart_animation" {
        delivered, left := StreamAnimation(streamId, budget, now);
        DeliversTouchesOnlyStream(streamId, PlaybackPlan(streamId, old(animationCache)), budget, now,
                                  old(activeConnections), old(connectionMetadata),
                                  activeConnections, connectionMetadata, delivered, left);
      } else if messageType == "get_stats" {
        var stats := GetStreamStats();
        var ok;
        ok, left := SendAnimationFrame(streamId, Stats(stats), budget, now);
        delivered := if ok then [Stats(stats)] else [];
        DeliversTouchesOnlyStream(streamId, [Stats(stats)], budget, now, old(activeConnections), old(connectionMetadata),
                                  activeConnections, connectionMetadata, delivered, left);
      } else {
        delivered, left := [], budget;
      }
    }

    /**
     * One turn of the receive loop of `handle_avatar_websocket`: a JSON
     * object is dispatched on its type, invalid JSON is ignored, JSON that is
     * not an object raises and so ends the loop, a receive timeout sends a
     * keep-alive ping and ends the loop if that send fails, and a disconnect
     * ends the loop.
     */
    method HandleClientEvent(streamId: string, event: ClientEvent, budget: nat, now: real)
      returns (reply: seq<ServerMessage>, left: nat, stop: bool)
      requires Valid()
      modifies this
      ensures Valid()
      ensures animationCache == old(animationCache)
      ensures activeConnections - {streamId} == old(activeConnections) - {streamId}
      ensures connectionMetadata - {streamId} == old(connectionMetadata) - {streamId}
      ensures event.TextMessage? ==> !stop
      ensures event.TextMessage? && event.messageType == "ping" ==>
        Delivers(streamId, [Pong], budget, now, old(activeConnections), old(connectionMetadata),
                 activeConnections, connectionMetadata, reply, left)
      ensures event.TextMessage? && event.messageType == "restart_animation" ==>
        Delivers(streamId, PlaybackPlan(streamId, old(animationCache)), budget, now,
                 old(activeConnections), old(connectionMetadata), activeConnections, connectionMetadata, reply, left)
      ensures event.TextMessage? && event.messageType == "get_stats" ==>
        Delivers(streamId, [Stats(old(StatsOf(activeConnections, animationCache, connectionMetadata)))], budget, now,
                 old(activeConnections), old(connectionMetadata), activeConnections, connectionMetadata, reply, left)
      ensures event.TextMessage? && event.messageType != "ping" && event.messageType != "restart_animation"
              && event.messageType != "get_stats" ==>
        && reply == [] && left == budget
        && activeConnections == old(activeConnections) && connectionMetadata == old(connectionMetadata)
      ensures event.ReceiveTimeout? ==>
        && Delivers(streamId, [Ping], budget, now, old(activeConnections), old(connectionMetadata),
                    activeConnections, connectionMetadata, reply, left)
        && (stop <==> reply == [])
      ensures event.InvalidJson? || event.NonObjectJson? || event.ClientDisconnected? ==>
        && reply == [] && left == budget && (stop <==> !event.InvalidJson?)
        && activeConnections == old(activeConnections) && connectionMetadata == old(connectionMetadata)
    {
      match event {
        case TextMessage(messageType) =>
          reply, left := Dispatch(streamId, messageType, budget, now);
          stop := false;
        case InvalidJson =>
          reply, left, stop := [], budget, false;
        case NonObjectJson =>
          reply, left, stop := [], budget, true;
        case ReceiveTimeout =>
          var ok;
          ok, left := SendAnimationFrame(streamId, Ping, budget, now);
          reply := if ok then [Ping] else [];
          stop := !ok;
        case ClientDisconnected =>
          reply, left, stop := [], budget, true;
      }
    }

    /**
     * `handle_avatar_websocket`: connects, plays the animation, answers the
     * client's messages until it leaves or a keep-alive ping fails, and
     * always disconnects at the end. What reaches the client starts with as
     * much of the playback plan as the socket carries.
     */
    method HandleAvatarWebsocket(websocket: Socket, streamId: string, events: seq<ClientEvent>, budget: nat, now: real)
      returns (delivered: seq<ServerMessage>)
      requires Valid()
      modifies this
      ensures Valid()
      ensures activeConnections == old(activeConnections) - {streamId}
      ensures connectionMetadata == old(connectionMetadata) - {streamId}
      ensures animationCache == old(animationCache)
      ensures var plan := PlaybackPlan(streamId, old(animationCache));
        Min(budget, |plan|) <= |delivered| && delivered[..Min(budget, |plan|)] == plan[..Min(budget, |plan|)]
    {
      Connect(websocket, streamId, now);
      var left;
      delivered, left := StreamAnimation(streamId, budget, now);
      ghost var plan := PlaybackPlan(streamId, old(animationCache));
      ghost var k := Min(budget, |plan|);
      DeliversTouchesOnlyStream(streamId, plan, budget, now, old(activeConnections)[streamId := websocket],
                                old(connectionMetadata)[streamId := ConnectionMetadata(now, ClientIp(websocket), 0, now)],
                                activeConnections, connectionMetadata, delivered, left);
      assert delivered == plan[..k];
      for e := 0 to |events|
        invariant Valid() && animationCache == old(animationCache)
        invariant k <= |delivered| && delivered[..k] == plan[..k]
        invariant activeConnections - {streamId} == old(activeConnections) - {streamId}
        invariant connectionMetadata - {streamId} == old(connectionMetadata) - {streamId}
      {
        var reply, stop;
        reply, left, stop := HandleClientEvent(streamId, events[e], left, now);
        assert (delivered + reply)[..k] == delivered[..k];
        delivered := delivered + reply;
        if stop {
          break;
        }
      }
      Disconnect(streamId);
    }
  }
}
