/** The GazeboRosDepthCamera plugin object: its connection counters, the
    parent sensor's active flag, the one-time advertisement, the three frame
    callbacks and the rate-limited depth camera-info. What it publishes is
    kept as a ghost log of events. */
module DepthCamera {
  import opened Frames
  import opened Activation

  /** A message the plugin hands to a topic or to its base class. */
  datatype Event =
    | PointCloudPublished(stamp: int, points: seq<Point>, dense: bool)
    | DepthImagePublished(stamp: int, cells: seq<Float>)
    | RgbCloudPublished(stamp: int, cloud: seq<PackedPoint>, isDense: bool)
    | CameraDataPut(image: seq<byte>)
    | CameraInfoDelegated

  /** Consecutive times are at least one period apart. */
  predicate Spaced(times: seq<int>, period: int)
  {
    forall k :: 0 < k < |times| ==> times[k] - times[k - 1] >= period
  }

  /** In a spaced sequence, times k positions apart are at least k periods apart. */
  lemma {:induction false} SpacedApart(times: seq<int>, period: int, a: nat, b: nat)
    requires Spaced(times, period) && a <= b < |times|
    ensures times[b] - times[a] >= (b - a) * period
    decreases b
  {
    if a < b {
      SpacedApart(times, period, a, b - 1);
      assert (b - a) * period == (b - 1 - a) * period + period;
    }
  }

  class GazeboRosDepthCamera {
    var pointCloudCount: int
    var depthImageCount: int
    var imageCount: int
    var depthInfoCount: int
    /** The parent sensor's active flag, read by IsActive and written by SetActive. */
    var active: bool
    var advertised: bool
    var depthSensorUpdateTime: int
    var sensorUpdateTime: int
    var lastDepthInfoTime: int
    /** The messages handed out so far, oldest first. */
    ghost var log: seq<Event>
    /** How many times the topics were advertised. */
    ghost var advertisements: nat
    /** The times of the depth camera-info publishes, oldest first. */
    ghost var depthInfoTimes: seq<int>

    // Set up by Load and the camera utilities, which are not part of this model.
    const initialized: bool
    const width: int
    const height: int
    const cutoff: real
    const updatePeriod: int
    const depthImage: DepthImageMsg

    /** Advertise ran at most once, and exactly when the flag is set; depth
        camera-info publishes are spaced by the update period and the last of
        them is the recorded time. */
    ghost predicate Valid()
      reads this`advertisements, this`advertised, this`depthInfoTimes, this`lastDepthInfoTime
    {
      && advertisements == (if advertised then 1 else 0)
      && Spaced(depthInfoTimes, updatePeriod)
      && (depthInfoTimes != [] ==> depthInfoTimes[|depthInfoTimes| - 1] == lastDepthInfoTime)
    }

    /** The counters and the active flag. */
    function GateState(): Gate
      reads this
    {
      Gate(Counts(pointCloudCount, depthImageCount, imageCount, depthInfoCount), active)
    }

    /** The guard of the frame callbacks. */
    predicate Ready()
    {
      initialized && height > 0 && width > 0
    }

    /** Only the counters and the active flag differ from the pre-state. */
    twostate predicate OnlyGateChanged()
      reads this
    {
      && advertised == old(advertised) && log == old(log)
      && advertisements == old(advertisements) && depthInfoTimes == old(depthInfoTimes)
      && depthSensorUpdateTime == old(depthSensorUpdateTime) && sensorUpdateTime == old(sensorUpdateTime)
      && lastDepthInfoTime == old(lastDepthInfoTime)
    }

    /** The point-cloud and camera-info counters start at zero, nothing is
        advertised and the last depth camera-info time is 0. The image and
        depth-image counters, which the constructor does not set, start at the
        given values; the sensor's flag and the configuration are given. */
    constructor (imageCount0: int, depthImageCount0: int, sensorActive: bool,
                 initialized: bool, width: int, height: int, cutoff: real,
                 updatePeriod: int)
      ensures Valid()
      ensures GateState() == Gate(Counts(0, depthImageCount0, imageCount0, 0), sensorActive)
      ensures !advertised && lastDepthInfoTime == 0
      ensures log == [] && advertisements == 0 && depthInfoTimes == []
      ensures this.initialized == initialized && this.width == width && this.height == height
      ensures this.cutoff == cutoff && this.updatePeriod == updatePeriod
      ensures fresh(depthImage) && fresh(depthImage.data)
    {
      this.initialized, this.width, this.height := initialized, width, height;
      this.cutoff, this.updatePeriod := cutoff, updatePeriod;
      depthImage := new DepthImageMsg();
      pointCloudCount, depthInfoCount := 0, 0;
      imageCount, depthImageCount := imageCount0, depthImageCount0;
      active := sensorActive;
      lastDepthInfoTime := 0;
      advertised := false;
      log, advertisements, depthInfoTimes := [], 0, [];
    }

    /** Registers the three topics with their connection hooks. */
    method Advertise()
      requires Valid() && !advertised
      modifies this`advertised, this`advertisements
      ensures Valid() && advertised && advertisements == old(advertisements) + 1
    {
      advertised := true;
      advertisements := advertisements + 1;
    }

    method PointCloudConnect()
      requires Valid()
      modifies this
      ensures Valid() && OnlyGateChanged()
      ensures GateState() == OnHook(old(GateState()), Connect(PointCloud))
    {
      pointCloudCount := pointCloudCount + 1;
      imageCount := imageCount + 1;
      active := true;
    }

    method PointCloudDisconnect()
      requires Valid()
      modifies this
      ensures Valid() && OnlyGateChanged()
      ensures GateState() == OnHook(old(GateState()), Disconnect(PointCloud))
    {
      pointCloudCount := pointCloudCount - 1;
      imageCount := imageCount - 1;
      if pointCloudCount <= 0 {
        active := false;
      }
    }

    method DepthImageConnect()
      requires Valid()
      modifies this
      ensures Valid() && OnlyGateChanged()
      ensures GateState() == OnHook(old(GateState()), Connect(DepthImage))
    {
      depthImageCount := depthImageCount + 1;
      active := true;
    }

    method DepthImageDisconnect()
      requires Valid()
      modifies this
      ensures Valid() && OnlyGateChanged()
      ensures GateState() == OnHook(old(GateState()), Disconnect(DepthImage))
    {
      depthImageCount := depthImageCount - 1;
    }

    method DepthInfoConnect()
      requires Valid()
      modifies this
      ensures Valid() && OnlyGateChanged()
      ensures GateState() == OnHook(old(GateState()), Connect(DepthInfo))
    {
      depthInfoCount := depthInfoCount + 1;
    }

    method DepthInfoDisconnect()
      requires Valid()
      modifies this
      ensures Valid() && OnlyGateChanged()
      ensures GateState() == OnHook(old(GateState()), Disconnect(DepthInfo))
    {
      depthInfoCount := depthInfoCount - 1;
    }

    /** Converts the depth frame to the point cloud, coloured from the camera
        utilities' cached colour image as it is at this frame, and publishes it. */
    method FillPointCloud(depths: seq<real>, colourImage: seq<byte>, proj: Projection)
      requires Valid() && Ready() && height * width <= |depths|
      modifies this`log
      ensures Valid()
      ensures log == old(log) + [PointCloudPublished(depthSensorUpdateTime,
                                   Cloud(CloudInput(depths, height, width, cutoff, colourImage, proj)),
                                   AllBeyondCutoff(depths, height * width, cutoff))]
    {
      var points, dense := FillPointCloudHelper(height, width, depths, cutoff, colourImage, proj);
      log := log + [PointCloudPublished(depthSensorUpdateTime, points, dense)];
    }

    /** Converts the depth frame into the depth image message and publishes it. */
    method FillDepthImage(depths: seq<real>)
      requires Valid() && Ready() && height * width <= |depths|
      modifies this`log, depthImage, depthImage.data
      ensures Valid()
      ensures depthImage.encoding == Type32FC1 && !depthImage.isBigEndian
      ensures depthImage.height == height && depthImage.width == width && depthImage.step == FloatSize * width
      ensures depthImage.data[..] == DepthCells(depths, height, width, cutoff)
      ensures depthImage.data == old(depthImage.data) || fresh(depthImage.data)
      ensures log == old(log) + [DepthImagePublished(depthSensorUpdateTime, DepthCells(depths, height, width, cutoff))]
    {
      FillDepthImageHelper(depthImage, height, width, depths, cutoff);
      log := log + [DepthImagePublished(depthSensorUpdateTime, depthImage.data[..])];
    }

    /** Fills and publishes the point cloud and the depth image of a depth
        frame, each only when its topic has subscribers. */
    method FillSubscribed(depths: seq<real>, colourImage: seq<byte>, proj: Projection)
      requires Valid() && Ready() && height * width <= |depths|
      modifies this`log, depthImage, depthImage.data
      ensures Valid()
      ensures log == old(log)
                     + (if pointCloudCount > 0
                        then [PointCloudPublished(depthSensorUpdateTime,
                                Cloud(CloudInput(depths, height, width, cutoff, colourImage, proj)),
                                AllBeyondCutoff(depths, height * width, cutoff))]
                        else [])
                     + (if depthImageCount > 0
                        then [DepthImagePublished(depthSensorUpdateTime, DepthCells(depths, height, width, cutoff))]
                        else [])
      ensures depthImageCount > 0 ==>
                && depthImage.encoding == Type32FC1 && !depthImage.isBigEndian
                && depthImage.height == height && depthImage.width == width && depthImage.step == FloatSize * width
                && depthImage.data[..] == DepthCells(depths, height, width, cutoff)
                && (depthImage.data == old(depthImage.data) || fresh(depthImage.data))
      ensures depthImageCount <= 0 ==> unchanged(depthImage) && unchanged(old(depthImage.data))
    {
      ghost var cloud: seq<Event> := [];
      if pointCloudCount > 0 {
        FillPointCloud(depths, colourImage, proj);
        cloud := [log[|log| - 1]];
      }
      assert log == old(log) + cloud;
      if depthImageCount > 0 {
        FillDepthImage(depths);
      } else {
        assert log == old(log) + cloud + [];
      }
    }

    /** The depth-frame callback: advertises on the first ready frame, then
        fills the point cloud and the depth image for the topics that have
        subscribers, or switches the sensor on or off. colourImage is the
        camera utilities' cached colour image as it is when the frame arrives. */
    method OnNewDepthFrame(depths: seq<real>, colourImage: seq<byte>, proj: Projection, lastUpdateTime: int)
      requires Valid()
      requires Ready() ==> height * width <= |depths|
      modifies this, depthImage, depthImage.data
      ensures Valid()
      ensures !Ready() ==> unchanged(this, depthImage) && unchanged(old(depthImage.data))
      ensures Ready() ==> advertised && depthSensorUpdateTime == lastUpdateTime
      ensures sensorUpdateTime == old(sensorUpdateTime)
      ensures lastDepthInfoTime == old(lastDepthInfoTime) && depthInfoTimes == old(depthInfoTimes)
      ensures Ready() ==> GateState() == AfterDepthFrame(old(GateState()))
      ensures Ready() ==>
                var r := DepthFrameReaction(old(GateState()));
                log == old(log)
                       + (if r.fillCloud
                          then [PointCloudPublished(lastUpdateTime,
                                  Cloud(CloudInput(depths, height, width, cutoff, colourImage, proj)),
                                  AllBeyondCutoff(depths, height * width, cutoff))]
                          else [])
                       + (if r.fillDepthImage
                          then [DepthImagePublished(lastUpdateTime, DepthCells(depths, height, width, cutoff))]
                          else [])
      ensures Ready() && DepthFrameReaction(old(GateState())).fillDepthImage ==>
                && depthImage.encoding == Type32FC1 && !depthImage.isBigEndian
                && depthImage.height == height && depthImage.width == width && depthImage.step == FloatSize * width
                && depthImage.data[..] == DepthCells(depths, height, width, cutoff)
                && (depthImage.data == old(depthImage.data) || fresh(depthImage.data))
      ensures !(Ready() && DepthFrameReaction(old(GateState())).fillDepthImage) ==>
                unchanged(depthImage) && unchanged(old(depthImage.data))
    {
      if !initialized || height <= 0 || width <= 0 {
        return;
      }
      if !advertised {
        Advertise();
      }
      depthSensorUpdateTime := lastUpdateTime;
      if active {
        if pointCloudCount <= 0 && depthImageCount <= 0 && imageCount <= 0 {
          active := false;
          assert log == old(log) + [] + [];
        } else {
          FillSubscribed(depths, colourImage, proj);
        }
      } else {
        if pointCloudCount > 0 || depthImageCount <= 0 {
          active := true;
        }
        assert log == old(log) + [] + [];
      }
    }

    /** The callback for a frame of 4-float records (x, y, z, packed colour):
        publishes the coloured cloud when the sensor is on and the point-cloud
        topic has subscribers. */
    method OnNewRGBPointCloud(pcd: seq<real>, frameWidth: nat, frameHeight: nat, lastUpdateTime: int)
      requires Valid()
      requires Ready() ==> 4 * (frameWidth * frameHeight) <= |pcd|
      modifies this
      ensures Valid()
      ensures !Ready() ==> unchanged(this)
      ensures Ready() ==> advertised && depthSensorUpdateTime == lastUpdateTime
      ensures sensorUpdateTime == old(sensorUpdateTime)
      ensures lastDepthInfoTime == old(lastDepthInfoTime) && depthInfoTimes == old(depthInfoTimes)
      ensures Ready() ==> GateState() == Gate(old(GateState()).counts, RgbCloudReaction(old(GateState())).active)
      ensures Ready() ==>
                log == old(log)
                       + (if RgbCloudReaction(old(GateState())).publishRgbCloud
                          then [RgbCloudPublished(lastUpdateTime, RgbColumns(pcd, frameWidth, frameHeight, frameWidth), true)]
                          else [])
    {
      if !initialized || height <= 0 || width <= 0 {
        return;
      }
      if !advertised {
        Advertise();
      }
      depthSensorUpdateTime := lastUpdateTime;
      if !active {
        if pointCloudCount > 0 {
          active := true;
        }
        assert log == old(log) + [];
      } else {
        if pointCloudCount > 0 {
          var points, dense := BuildRgbCloud(pcd, frameWidth, frameHeight);
          log := log + [RgbCloudPublished(depthSensorUpdateTime, points, dense)];
        } else {
          assert log == old(log) + [];
        }
      }
    }

    /** The colour-frame callback: forwards the frame to the camera utilities
        when the sensor is on and the image topic has subscribers. */
    method OnNewImageFrame(image: seq<byte>, lastUpdateTime: int)
      requires Valid()
      modifies this
      ensures Valid()
      ensures !Ready() ==> unchanged(this)
      ensures Ready() ==> advertised && sensorUpdateTime == lastUpdateTime
      ensures depthSensorUpdateTime == old(depthSensorUpdateTime)
      ensures lastDepthInfoTime == old(lastDepthInfoTime) && depthInfoTimes == old(depthInfoTimes)
      ensures Ready() ==> GateState() == Gate(old(GateState()).counts, ImageFrameReaction(old(GateState())).active)
      ensures Ready() ==>
                log == old(log) + (if ImageFrameReaction(old(GateState())).putImage then [CameraDataPut(image)] else [])
    {
      if !initialized || height <= 0 || width <= 0 {
        return;
      }
      if !advertised {
        Advertise();
      }
      sensorUpdateTime := lastUpdateTime;
      if !active {
        if imageCount > 0 {
          active := true;
        }
        assert log == old(log) + [];
      } else {
        if imageCount > 0 {
          log := log + [CameraDataPut(image)];
        } else {
          assert log == old(log) + [];
        }
      }
    }

    /** Delegates the generic camera-info to the camera utilities, then
        publishes the depth camera-info when it has a subscriber and a full
        update period has passed since the last such publish. */
    method PublishCameraInfo(simTime: int, lastUpdateTime: int)
      requires Valid()
      modifies this`log, this`sensorUpdateTime, this`lastDepthInfoTime, this`depthInfoTimes
      ensures Valid()
      ensures log == old(log) + [CameraInfoDelegated]
      ensures var due := depthInfoCount > 0 && simTime - old(lastDepthInfoTime) >= updatePeriod;
              && depthInfoTimes == old(depthInfoTimes) + (if due then [simTime] else [])
              && lastDepthInfoTime == (if due then simTime else old(lastDepthInfoTime))
      ensures sensorUpdateTime == if depthInfoCount > 0 then lastUpdateTime else old(sensorUpdateTime)
    {
      log := log + [CameraInfoDelegated];
      if depthInfoCount > 0 {
        sensorUpdateTime := lastUpdateTime;
        var curTime := simTime;
        if curTime - lastDepthInfoTime >= updatePeriod {
          PublishDepthInfo(curTime);
        } else {
          assert depthInfoTimes == old(depthInfoTimes) + [];
        }
      } else {
        assert depthInfoTimes == old(depthInfoTimes) + [];
      }
    }

    /** Publishes the depth camera-info at a time at least one period after
        the last one and records that time. */
    method PublishDepthInfo(time: int)
      requires Valid() && time - lastDepthInfoTime >= updatePeriod
      modifies this`depthInfoTimes, this`lastDepthInfoTime
      ensures Valid() && lastDepthInfoTime == time && depthInfoTimes == old(depthInfoTimes) + [time]
    {
      depthInfoTimes := depthInfoTimes + [time];
      lastDepthInfoTime := time;
    }
  }

  /** A point-cloud subscriber attaching to a ready camera receives a cloud
      from the very next depth frame: the connect hook activates the sensor
      directly, so no frame is spent on activation. */
  method SubscribeThenDepthFrame(cam: GazeboRosDepthCamera, depths: seq<real>, colourImage: seq<byte>,
                                 proj: Projection, time: int)
    requires cam.Valid() && cam.Ready() && cam.pointCloudCount >= 0
    requires cam.height * cam.width <= |depths|
    modifies cam, cam.depthImage, cam.depthImage.data
    ensures cam.Valid() && cam.active && cam.advertised
    ensures |cam.log| > |old(cam.log)|
    ensures cam.log[|old(cam.log)|]
            == PointCloudPublished(time, Cloud(CloudInput(depths, cam.height, cam.width, cam.cutoff, colourImage, proj)),
                                   AllBeyondCutoff(depths, cam.height * cam.width, cam.cutoff))
  {
    cam.PointCloudConnect();
    ConnectThenDepthFrameFills(old(cam.GateState()));
    cam.OnNewDepthFrame(depths, colourImage, proj, time);
  }

  /** As written, when the last point-cloud subscriber leaves while a
      depth-image subscriber remains, the sensor is switched off and the next
      depth frame neither switches it back on nor publishes anything. */
  method UnsubscribeStrandsDepthImage(cam: GazeboRosDepthCamera, depths: seq<real>, colourImage: seq<byte>,
                                      proj: Projection, time: int)
    requires cam.Valid() && cam.Ready() && cam.pointCloudCount == 1 && cam.depthImageCount > 0
    requires cam.height * cam.width <= |depths|
    modifies cam, cam.depthImage, cam.depthImage.data
    ensures cam.Valid() && !cam.active && cam.depthImageCount > 0
    ensures cam.log == old(cam.log)
  {
    cam.PointCloudDisconnect();
    DepthImageSubscriberStranded(old(cam.GateState()), 1);
    cam.OnNewDepthFrame(depths, colourImage, proj, time);
  }
}
