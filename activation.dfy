/** Subscriber bookkeeping and sensor activation of the depth camera plugin,
    as pure transitions over its counters and the parent sensor's active flag.
    The plugin class applies exactly these transitions; the lemmas below state
    what sequences of them do. */
module Activation {

  /** The three topics whose subscribe/unsubscribe hooks the plugin registers. */
  datatype Channel = PointCloud | DepthImage | DepthInfo

  /** A subscriber attaching to, or detaching from, a channel. */
  datatype Hook = Connect(channel: Channel) | Disconnect(channel: Channel)

  /** The four connection counters: point cloud, depth image, the shared image
      counter that the point-cloud hooks also move, and depth camera-info. */
  datatype Counts = Counts(pointCloud: int, depthImage: int, image: int, depthInfo: int)

  /** The counters together with the parent sensor's active flag. */
  datatype Gate = Gate(counts: Counts, active: bool)

  /** One connection hook. Connecting to the point cloud or the depth image
      activates the sensor; disconnecting from the point cloud deactivates it
      when the point-cloud count drops to zero or below, whatever the other
      counters hold; the other hooks leave the flag alone. */
  function OnHook(g: Gate, h: Hook): (r: Gate)
    // each hook moves its own counters by one and no other counter: a
    // point-cloud hook moves the point-cloud and image counters
    ensures var d := if h.Connect? then 1 else -1;
            && r.counts.pointCloud == g.counts.pointCloud + (if h.channel == PointCloud then d else 0)
            && r.counts.image == g.counts.image + (if h.channel == PointCloud then d else 0)
            && r.counts.depthImage == g.counts.depthImage + (if h.channel == DepthImage then d else 0)
            && r.counts.depthInfo == g.counts.depthInfo + (if h.channel == DepthInfo then d else 0)
    // the active flag, hook by hook
    ensures h == Connect(PointCloud) || h == Connect(DepthImage) ==> r.active
    ensures h == Disconnect(PointCloud) ==> r.active == (g.active && r.counts.pointCloud > 0)
    ensures h.channel == DepthInfo || h == Disconnect(DepthImage) ==> r.active == g.active
  {
    var c := g.counts;
    match h
    case Connect(PointCloud) =>
      Gate(c.(pointCloud := c.pointCloud + 1, image := c.image + 1), true)
    case Disconnect(PointCloud) =>
      var c' := c.(pointCloud := c.pointCloud - 1, image := c.image - 1);
      Gate(c', if c'.pointCloud <= 0 then false else g.active)
    case Connect(DepthImage) =>
      Gate(c.(depthImage := c.depthImage + 1), true)
    case Disconnect(DepthImage) =>
      Gate(c.(depthImage := c.depthImage - 1), g.active)
    case Connect(DepthInfo) =>
      Gate(c.(depthInfo := c.depthInfo + 1), g.active)
    case Disconnect(DepthInfo) =>
      Gate(c.(depthInfo := c.depthInfo - 1), g.active)
  }

  /** A sequence of hooks, applied in order. */
  function OnHooks(g: Gate, hs: seq<Hook>): Gate
    decreases |hs|
  {
    if hs == [] then g else OnHooks(OnHook(g, hs[0]), hs[1..])
  }

  /** The same hook n times. */
  function Repeat(h: Hook, n: nat): seq<Hook>
  {
    seq(n, _ => h)
  }

  /** Connects minus disconnects of a channel in a hook sequence. */
  function Net(hs: seq<Hook>, ch: Channel): int
  {
    multiset(hs)[Connect(ch)] as int - multiset(hs)[Disconnect(ch)] as int
  }

  /** Every channel is connected exactly as often as it is disconnected. */
  predicate Balanced(hs: seq<Hook>)
  {
    forall ch :: Net(hs, ch) == 0
  }

  /** Applying a concatenation is applying its parts in turn. */
  lemma {:induction false} OnHooksAppend(g: Gate, a: seq<Hook>, b: seq<Hook>)
    ensures OnHooks(g, a + b) == OnHooks(OnHooks(g, a), b)
    decreases |a|
  {
    if a != [] {
      assert (a + b)[0] == a[0] && (a + b)[1..] == a[1..] + b;
      OnHooksAppend(OnHook(g, a[0]), a[1..], b);
    } else {
      assert a + b == b;
    }
  }

  /** After any hook sequence each counter has moved by its channel's net
      number of connects; the image counter moves with the point-cloud one. */
  lemma {:induction false} HooksCounts(g: Gate, hs: seq<Hook>)
    ensures var c := OnHooks(g, hs).counts;
            && c.pointCloud == g.counts.pointCloud + Net(hs, PointCloud)
            && c.image == g.counts.image + Net(hs, PointCloud)
            && c.depthImage == g.counts.depthImage + Net(hs, DepthImage)
            && c.depthInfo == g.counts.depthInfo + Net(hs, DepthInfo)
    decreases |hs|
  {
    if hs != [] {
      HooksCounts(OnHook(g, hs[0]), hs[1..]);
      NetFirst(hs, PointCloud);
      NetFirst(hs, DepthImage);
      NetFirst(hs, DepthInfo);
    }
  }

  /** The net count of a non-empty sequence is its first hook's share plus
      the net count of the rest. */
  lemma NetFirst(hs: seq<Hook>, ch: Channel)
    requires hs != []
    ensures Net(hs, ch) == (if hs[0].channel != ch then 0 else if hs[0].Connect? then 1 else -1)
                           + Net(hs[1..], ch)
  {
    assert hs == [hs[0]] + hs[1..];
    assert multiset(hs) == multiset{hs[0]} + multiset(hs[1..]);
  }

  /** A balanced hook sequence restores every counter. */
  lemma BalancedRestoresCounts(g: Gate, hs: seq<Hook>)
    requires Balanced(hs)
    ensures OnHooks(g, hs).counts == g.counts
  {
    HooksCounts(g, hs);
    assert Net(hs, PointCloud) == 0 && Net(hs, DepthImage) == 0 && Net(hs, DepthInfo) == 0;
  }

  /** The hooks never change the difference between the image and point-cloud counters. */
  lemma ImageTracksPointCloud(g: Gate, hs: seq<Hook>)
    ensures OnHooks(g, hs).counts.image - OnHooks(g, hs).counts.pointCloud
            == g.counts.image - g.counts.pointCloud
  {
    HooksCounts(g, hs);
  }

  lemma {:induction false} RepeatCount(h: Hook, n: nat, x: Hook)
    ensures multiset(Repeat(h, n))[x] == if x == h then n else 0
  {
    if n > 0 {
      assert Repeat(h, n) == Repeat(h, n - 1) + [h];
      RepeatCount(h, n - 1, x);
    }
  }

  /** n connects followed by n disconnects of one channel restore every counter. */
  lemma ConnectsThenDisconnects(g: Gate, ch: Channel, n: nat)
    ensures OnHooks(g, Repeat(Connect(ch), n) + Repeat(Disconnect(ch), n)).counts == g.counts
  {
    var hs := Repeat(Connect(ch), n) + Repeat(Disconnect(ch), n);
    forall c
      ensures Net(hs, c) == 0
    {
      RepeatCount(Connect(ch), n, Connect(c));
      RepeatCount(Connect(ch), n, Disconnect(c));
      RepeatCount(Disconnect(ch), n, Connect(c));
      RepeatCount(Disconnect(ch), n, Disconnect(c));
    }
    BalancedRestoresCounts(g, hs);
  }

  /** Hooks of the depth-image and depth-info channels alone leave the sensor
      active afterwards exactly when it was active before or a depth-image
      subscriber connected: they never deactivate it. */
  lemma {:induction false} DepthHooksNeverDeactivate(g: Gate, hs: seq<Hook>)
    requires forall k :: 0 <= k < |hs| ==> hs[k].channel != PointCloud
    ensures OnHooks(g, hs).active == (g.active || Connect(DepthImage) in hs)
    decreases |hs|
  {
    if hs != [] {
      DepthHooksNeverDeactivate(OnHook(g, hs[0]), hs[1..]);
      assert hs == [hs[0]] + hs[1..];
    }
  }

  /** After n > 0 connects of a point-cloud or depth-image subscriber the sensor is active. */
  lemma {:induction false} ConnectsActivate(g: Gate, ch: Channel, n: nat)
    requires ch != DepthInfo && n > 0
    ensures OnHooks(g, Repeat(Connect(ch), n)).active
    ensures ch == PointCloud ==> OnHooks(g, Repeat(Connect(ch), n)).counts.pointCloud == g.counts.pointCloud + n
    decreases n
  {
    assert Repeat(Connect(ch), n) == [Connect(ch)] + Repeat(Connect(ch), n - 1);
    OnHooksAppend(g, [Connect(ch)], Repeat(Connect(ch), n - 1));
    if n > 1 {
      ConnectsActivate(OnHook(g, Connect(ch)), ch, n - 1);
    }
  }

  /** After n point-cloud disconnects the sensor is active exactly when it was
      active and the point-cloud count stayed positive all along, that is, is
      still positive at the end. */
  lemma {:induction false} PointCloudDisconnectsActivity(g: Gate, n: nat)
    ensures OnHooks(g, Repeat(Disconnect(PointCloud), n)).active
            == (g.active && (n == 0 || g.counts.pointCloud - n > 0))
    decreases n
  {
    if n > 0 {
      var h := Disconnect(PointCloud);
      assert Repeat(h, n) == [h] + Repeat(h, n - 1);
      OnHooksAppend(g, [h], Repeat(h, n - 1));
      PointCloudDisconnectsActivity(OnHook(g, h), n - 1);
    }
  }

  /** n > 0 point-cloud subscribers attaching and then detaching restore every
      counter and leave the sensor active exactly when the point-cloud count
      was positive to begin with; from a count of zero the sensor ends inactive. */
  lemma PointCloudRoundTrip(g: Gate, n: nat)
    requires n > 0
    ensures OnHooks(g, Repeat(Connect(PointCloud), n) + Repeat(Disconnect(PointCloud), n)).counts == g.counts
    ensures OnHooks(g, Repeat(Connect(PointCloud), n) + Repeat(Disconnect(PointCloud), n)).active
            == (g.counts.pointCloud > 0)
  {
    ConnectsThenDisconnects(g, PointCloud, n);
    OnHooksAppend(g, Repeat(Connect(PointCloud), n), Repeat(Disconnect(PointCloud), n));
    ConnectsActivate(g, PointCloud, n);
    PointCloudDisconnectsActivity(OnHooks(g, Repeat(Connect(PointCloud), n)), n);
  }

  // ---------------------------------------------------------------------------
  // Frame callbacks

  /** What a frame callback does once the plugin is initialised: the new
      active flag and which outputs it produces. */
  datatype Reaction = Reaction(active: bool, fillCloud: bool, fillDepthImage: bool,
                               publishRgbCloud: bool, putImage: bool)

  const Idle := Reaction(false, false, false, false, false)

  /** OnNewDepthFrame: an active sensor with no point-cloud, depth-image or
      image subscriber is deactivated; otherwise it fills the point cloud and
      the depth image for the channels that have subscribers. An inactive
      sensor produces nothing and is activated when the point-cloud count is
      positive or, as written, when the depth-image count is NOT positive. */
  function DepthFrameReaction(g: Gate): (r: Reaction)
    ensures !r.publishRgbCloud && !r.putImage
    ensures var c := g.counts;
            && (g.active && c.pointCloud <= 0 && c.depthImage <= 0 && c.image <= 0 ==>
                  !r.active && !r.fillCloud && !r.fillDepthImage)
            && (g.active && !(c.pointCloud <= 0 && c.depthImage <= 0 && c.image <= 0) ==>
                  r.active && (r.fillCloud <==> c.pointCloud > 0) && (r.fillDepthImage <==> c.depthImage > 0))
            && (!g.active ==>
                  !r.fillCloud && !r.fillDepthImage && (r.active <==> c.pointCloud > 0 || c.depthImage <= 0))
  {
    var c := g.counts;
    if g.active then
      if c.pointCloud <= 0 && c.depthImage <= 0 && c.image <= 0 then Idle
      else Idle.(active := true, fillCloud := c.pointCloud > 0, fillDepthImage := c.depthImage > 0)
    else
      Idle.(active := c.pointCloud > 0 || c.depthImage <= 0)
  }

  /** OnNewRGBPointCloud: an inactive sensor is activated when the point-cloud
      count is positive; an active one publishes the cloud in that case. */
  function RgbCloudReaction(g: Gate): (r: Reaction)
    ensures !r.fillCloud && !r.fillDepthImage && !r.putImage
    ensures g.active ==> r.active && (r.publishRgbCloud <==> g.counts.pointCloud > 0)
    ensures !g.active ==> (r.active <==> g.counts.pointCloud > 0) && !r.publishRgbCloud
  {
    if g.active then Idle.(active := true, publishRgbCloud := g.counts.pointCloud > 0)
    else Idle.(active := g.counts.pointCloud > 0)
  }

  /** OnNewImageFrame: as OnNewRGBPointCloud, on the image counter, forwarding
      the frame to the camera utilities. */
  function ImageFrameReaction(g: Gate): (r: Reaction)
    ensures !r.fillCloud && !r.fillDepthImage && !r.publishRgbCloud
    ensures g.active ==> r.active && (r.putImage <==> g.counts.image > 0)
    ensures !g.active ==> (r.active <==> g.counts.image > 0) && !r.putImage
  {
    if g.active then Idle.(active := true, putImage := g.counts.image > 0)
    else Idle.(active := g.counts.image > 0)
  }

  /** The gate after a depth frame: counters unchanged, flag as the reaction says. */
  function AfterDepthFrame(g: Gate): Gate
  {
    Gate(g.counts, DepthFrameReaction(g).active)
  }

  /** With no subscriber on any counter, successive depth frames switch the
      sensor on and off in turn, since the inactive branch activates when the
      depth-image count is not positive. */
  lemma {:induction false} IdleDepthFramesToggle(g: Gate, n: nat)
    requires g.counts.pointCloud <= 0 && g.counts.depthImage <= 0 && g.counts.image <= 0
    ensures DepthFrames(g, n).active == (if n % 2 == 0 then g.active else !g.active)
    ensures DepthFrames(g, n).counts == g.counts
  {
    if n > 0 {
      IdleDepthFramesToggle(g, n - 1);
    }
  }

  /** n depth frames in a row, with no hook in between. */
  function DepthFrames(g: Gate, n: nat): Gate
  {
    if n == 0 then g else AfterDepthFrame(DepthFrames(g, n - 1))
  }

  /** When the last point-cloud subscriber leaves while a depth-image subscriber
      remains, the sensor is deactivated, and no number of depth frames
      reactivates it or fills anything. */
  lemma {:induction false} DepthImageSubscriberStranded(g: Gate, n: nat)
    requires g.counts.pointCloud == 1 && g.counts.depthImage > 0
    ensures var g' := OnHook(g, Disconnect(PointCloud));
            && !g'.active && g'.counts.depthImage > 0
            && DepthFrames(g', n) == g'
            && DepthFrameReaction(DepthFrames(g', n)) == Idle
  {
    if n > 0 {
      DepthImageSubscriberStranded(g, n - 1);
    }
  }

  /** A point-cloud subscriber activates the sensor at once, so the first
      depth frame after it connects already fills the cloud. */
  lemma ConnectThenDepthFrameFills(g: Gate)
    requires g.counts.pointCloud >= 0
    ensures DepthFrameReaction(OnHook(g, Connect(PointCloud))).fillCloud
  {
  }

  /** Likewise a depth-image subscriber activates the sensor at once, so the
      first depth frame after it connects already fills the depth image. */
  lemma ConnectThenDepthFrameFillsDepthImage(g: Gate)
    requires g.counts.depthImage >= 0
    ensures DepthFrameReaction(OnHook(g, Connect(DepthImage))).fillDepthImage
  {
  }

  /** An inactive sensor with a point-cloud subscriber is activated by a depth
      frame that fills nothing; the next depth frame fills the cloud. */
  lemma DepthFrameWarmUp(g: Gate)
    requires !g.active && g.counts.pointCloud > 0
    ensures DepthFrameReaction(g) == Idle.(active := true)
    ensures DepthFrameReaction(AfterDepthFrame(g)).fillCloud
  {
  }
}
