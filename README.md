# Gazebo ROS depth camera plugin, modelled in Dafny

`GazeboRosDepthCamera` is the Gazebo sensor plugin that turns a simulated
depth camera into ROS topics: a point cloud, a 32-bit float depth image, a
depth camera-info, and (through the generic camera utilities) a colour image
and its camera-info. This project models the plugin's own logic:

- **Subscriber bookkeeping and sensor activation** (`activation.dfy`, module
  `Activation`): the four connection counters and the parent sensor's active
  flag as a pure transition system. The six connect/disconnect hooks and the
  decisions of the three frame callbacks are modelled, together with lemmas
  about hook sequences and repeated frames.
- **Frame-to-message converters** (`frames.dfy`, module `Frames`):
  - `FillDepthImageHelper` fills the depth image's buffer in place, on an
    `array`;
  - `FillPointCloudHelper` builds an XYZRGB cloud of rows*cols points in
    row-major order, unseeable points kept as NaN, from a depth
    frame and the colour image the camera utilities hold at that frame;
  - the loop of `OnNewRGBPointCloud` builds a cloud from the sensor's 4-float
    records.

  Each is a method with loops, proved against a specification function whose
  layout, cutoff rule, colour rule and dense flag are stated by lemmas.
- **The plugin object** (`depth_camera.dfy`, module `DepthCamera`): a class
  with the counters, the active flag, `advertised_`, the update times and the
  last depth camera-info time as mutable fields. Its hooks and callbacks
  modify them as the source does. What the plugin hands to its topics is
  recorded in a ghost log of events. How often it advertised and when it
  published the depth camera-info are two more ghost fields. The class
  invariant `Valid()` says the topics were advertised at most once, exactly
  when the flag is set, and that depth camera-info publishes are spaced by
  the update period.

Every hook method is proved equal to `Activation.OnHook`, and every callback
to the matching `Activation` reaction. The lemmas about the pure transitions
therefore describe the object.

Depths are `real`. The quiet NaN the plugin writes for an unseeable point is
the constructor `NaN` of `Frames.Float`. Time is an integer number of ticks.

Two behaviours are modelled as the code has them, not as a reader might
expect:

- `PointCloudDisconnect` switches the sensor off whenever the point-cloud
  count drops to zero or below, whatever the other counters hold.
- The inactive branch of `OnNewDepthFrame` switches the sensor on when the
  point-cloud count is positive or the depth-image count is *not* positive.

Together they strand a depth-image subscriber once the last point-cloud
subscriber leaves, as long as only depth frames arrive
(`Activation.DepthImageSubscriberStranded`,
`DepthCamera.UnsubscribeStrandsDepthImage`). A colour image frame while the
image count is positive, or a new depth-image subscriber, switches the
sensor back on. With no subscriber at all,
successive depth frames toggle the sensor on and off
(`Activation.IdleDepthFramesToggle`).

When a frame callback finds the sensor inactive, it only switches the sensor
on and produces nothing; the comment at
`gazebo_plugins/src/gazebo_ros_depth_camera.cpp:214` (and 235, 302) says this
lets the sensor run one frame after activation. Output therefore starts one
frame later (`Activation.DepthFrameWarmUp`). `PointCloudConnect` and
`DepthImageConnect`, however, switch the sensor on themselves, so the first
depth frame after a subscription already fills
(`Activation.ConnectThenDepthFrameFills`,
`Activation.ConnectThenDepthFrameFillsDepthImage`,
`DepthCamera.SubscribeThenDepthFrame`).

## Model

| member | source | states |
|---|---|---|
| Frames.DepthCellAt | gazebo_plugins/src/gazebo_ros_depth_camera.cpp:461-477 | cell i + j*cols of the depth image exists; it is a number iff depth j*cols + i is strictly beyond the cutoff (a depth equal to the cutoff is NaN), and then it is that depth |
| Frames.FillDepthImageHelper | gazebo_plugins/src/gazebo_ros_depth_camera.cpp:443-479 | sets encoding 32FC1, height = rows, width = cols, step = 4*cols, not big-endian; the buffer holds rows*cols*4 bytes; its cells are exactly the depth image of the frame; the buffer is reused when its size already matched |
| Frames.FillDepthImageTwice | gazebo_plugins/src/gazebo_ros_depth_camera.cpp:448-477 | converting the same frame twice gives the same cells; the second conversion keeps the buffer the first one left, which is the original buffer when its size already matched (idempotence) |
| Frames.ColourRule | gazebo_plugins/src/gazebo_ros_depth_camera.cpp:409-431 | the 3-channel byte offsets i*3 + j*cols*3 + 0..2 and the mono offset i + j*cols are in range; a point takes the three bytes of a rows*cols*3 image, else the grey byte of a rows*cols image, else black |
| Frames.CloudRows | gazebo_plugins/src/gazebo_ros_depth_camera.cpp:378-435 | the first n rows of the cloud hold n*cols points |
| Frames.CloudRowsValidity | gazebo_plugins/src/gazebo_ros_depth_camera.cpp:399-407 | point k of the first n rows has a numeric z iff depth k is strictly beyond the cutoff |
| Frames.CloudLayout | gazebo_plugins/src/gazebo_ros_depth_camera.cpp:366-435 | the cloud has rows*cols points in row-major order; point j*cols + i comes from depth j*cols + i: beyond the cutoff z is the depth and x, y are the depth times the column's and the row's tangent, otherwise x, y, z are all NaN; its colour follows the colour rule; every point is valid iff every depth is beyond the cutoff |
| Frames.FillPointCloudHelper | gazebo_plugins/src/gazebo_ros_depth_camera.cpp:361-440 | returns exactly the specified cloud (rows*cols points, row-major); point k has a numeric z iff depth k is beyond the cutoff; the dense flag is true iff every depth is beyond the cutoff |
| Frames.RgbColumns | gazebo_plugins/src/gazebo_ros_depth_camera.cpp:254-264 | the first n columns of the RGB cloud hold n*height points |
| Frames.RgbCloudLayout | gazebo_plugins/src/gazebo_ros_depth_camera.cpp:254-264 | the RGB cloud has width*height points; push i*height + j (column i outer, row j inner) is record j*width + i, whose four floats are x, y, z and the packed colour |
| Frames.BuildRgbCloud | gazebo_plugins/src/gazebo_ros_depth_camera.cpp:250-274 | returns exactly the specified column-major cloud of width*height points and never clears the dense flag |
| Activation.OnHook | gazebo_plugins/src/gazebo_ros_depth_camera.cpp:137-178 | one hook moves its channel's counter by +1 (connect) or -1 (disconnect); a point-cloud hook also moves the image counter; no other counter changes; point-cloud and depth-image connects activate; a point-cloud disconnect leaves the sensor active iff it was active and the point-cloud count stays positive; the depth-image disconnect and both depth-info hooks leave the flag alone |
| Activation.OnHooksAppend | gazebo_plugins/src/gazebo_ros_depth_camera.cpp:137-178 | applying two hook sequences one after the other is applying their concatenation |
| Activation.HooksCounts | gazebo_plugins/src/gazebo_ros_depth_camera.cpp:137-178 | after any hook sequence each counter has moved by its channel's connects minus disconnects, the image counter by the point-cloud channel's |
| Activation.BalancedRestoresCounts | gazebo_plugins/src/gazebo_ros_depth_camera.cpp:137-178 | a hook sequence with as many connects as disconnects on every channel restores every counter |
| Activation.ImageTracksPointCloud | gazebo_plugins/src/gazebo_ros_depth_camera.cpp:137-151 | no hook sequence changes the difference between the image and point-cloud counters |
| Activation.ConnectsThenDisconnects | gazebo_plugins/src/gazebo_ros_depth_camera.cpp:137-178 | n connects followed by n disconnects of one channel restore every counter |
| Activation.DepthHooksNeverDeactivate | gazebo_plugins/src/gazebo_ros_depth_camera.cpp:155-178 | after depth-image and depth-info hooks alone the sensor is active iff it was active before or a depth-image subscriber connected |
| Activation.ConnectsActivate | gazebo_plugins/src/gazebo_ros_depth_camera.cpp:137-159 | n > 0 point-cloud or depth-image connects leave the sensor active; n point-cloud connects raise that counter by n |
| Activation.PointCloudDisconnectsActivity | gazebo_plugins/src/gazebo_ros_depth_camera.cpp:145-151 | after n point-cloud disconnects the sensor is active iff it was active and the point-cloud count is still positive |
| Activation.PointCloudRoundTrip | gazebo_plugins/src/gazebo_ros_depth_camera.cpp:137-151 | n point-cloud subscribers attaching then detaching restore every counter and leave the sensor active iff the point-cloud count was positive to begin with |
| Activation.DepthFrameReaction | gazebo_plugins/src/gazebo_ros_depth_camera.cpp:193-216 | never publishes an RGB cloud or forwards an image; active with no point-cloud, depth-image or image subscriber: deactivates and fills nothing; active otherwise: stays active, fills the cloud iff the point-cloud count is positive and the depth image iff the depth-image count is positive; inactive: fills nothing and activates iff the point-cloud count is positive or the depth-image count is not |
| Activation.RgbCloudReaction | gazebo_plugins/src/gazebo_ros_depth_camera.cpp:232-281 | fills nothing and forwards nothing; active: stays active and publishes the RGB cloud iff the point-cloud count is positive; inactive: publishes nothing and activates iff the point-cloud count is positive |
| Activation.ImageFrameReaction | gazebo_plugins/src/gazebo_ros_depth_camera.cpp:299-309 | fills and publishes nothing; active: stays active and forwards the frame to the camera utilities iff the image count is positive; inactive: forwards nothing and activates iff the image count is positive |
| Activation.IdleDepthFramesToggle | gazebo_plugins/src/gazebo_ros_depth_camera.cpp:193-216 | with no subscriber on any counter, n depth frames leave the flag as it was for even n and inverted for odd n, counters unchanged |
| Activation.DepthImageSubscriberStranded | gazebo_plugins/src/gazebo_ros_depth_camera.cpp:145-216 | when the last point-cloud subscriber leaves while a depth-image subscriber remains, the sensor is inactive and any number of depth frames leaves it so and fills nothing |
| Activation.ConnectThenDepthFrameFills | gazebo_plugins/src/gazebo_ros_depth_camera.cpp:137-208 | the first depth frame after a point-cloud subscriber connects fills the cloud |
| Activation.ConnectThenDepthFrameFillsDepthImage | gazebo_plugins/src/gazebo_ros_depth_camera.cpp:155-208 | the first depth frame after a depth-image subscriber connects fills the depth image |
| Activation.DepthFrameWarmUp | gazebo_plugins/src/gazebo_ros_depth_camera.cpp:193-216 | an inactive sensor with a point-cloud subscriber is activated by a depth frame that fills nothing, and the next depth frame fills the cloud |
| DepthCamera.SpacedApart | gazebo_plugins/src/gazebo_ros_depth_camera.cpp:486-494 | depth camera-info publishes k apart in the sequence are at least k update periods apart |
| DepthCamera.GazeboRosDepthCamera.constructor | gazebo_plugins/src/gazebo_ros_depth_camera.cpp:46-52 | point-cloud and depth-info counters 0, not advertised, last depth-info time 0, nothing published; the other two counters are given; the invariant holds |
| DepthCamera.GazeboRosDepthCamera.Advertise | gazebo_plugins/src/gazebo_ros_depth_camera.cpp:105-132 | sets the flag and counts one advertisement, keeping the invariant |
| DepthCamera.GazeboRosDepthCamera.PointCloudConnect | gazebo_plugins/src/gazebo_ros_depth_camera.cpp:137-142 | the counters and flag become OnHook of the connect; nothing else changes |
| DepthCamera.GazeboRosDepthCamera.PointCloudDisconnect | gazebo_plugins/src/gazebo_ros_depth_camera.cpp:145-151 | the counters and flag become OnHook of the disconnect; nothing else changes |
| DepthCamera.GazeboRosDepthCamera.DepthImageConnect | gazebo_plugins/src/gazebo_ros_depth_camera.cpp:155-159 | the counters and flag become OnHook of the connect; nothing else changes |
| DepthCamera.GazeboRosDepthCamera.DepthImageDisconnect | gazebo_plugins/src/gazebo_ros_depth_camera.cpp:162-165 | the counters and flag become OnHook of the disconnect; nothing else changes |
| DepthCamera.GazeboRosDepthCamera.DepthInfoConnect | gazebo_plugins/src/gazebo_ros_depth_camera.cpp:169-172 | the counters and flag become OnHook of the connect; nothing else changes |
| DepthCamera.GazeboRosDepthCamera.DepthInfoDisconnect | gazebo_plugins/src/gazebo_ros_depth_camera.cpp:175-178 | the counters and flag become OnHook of the disconnect; nothing else changes |
| DepthCamera.GazeboRosDepthCamera.FillPointCloud | gazebo_plugins/src/gazebo_ros_depth_camera.cpp:314-335 | publishes one cloud stamped with the depth sensor's update time: the specified cloud of the frame, coloured from the colour image passed with it, with its dense flag |
| DepthCamera.GazeboRosDepthCamera.FillDepthImage | gazebo_plugins/src/gazebo_ros_depth_camera.cpp:339-357 | fills the plugin's depth image message as FillDepthImageHelper specifies and publishes its cells stamped with the depth sensor's update time |
| DepthCamera.GazeboRosDepthCamera.FillSubscribed | gazebo_plugins/src/gazebo_ros_depth_camera.cpp:201-208 | publishes the cloud iff the point-cloud count is positive, then the depth image iff the depth-image count is positive, in that order |
| DepthCamera.GazeboRosDepthCamera.OnNewDepthFrame | gazebo_plugins/src/gazebo_ros_depth_camera.cpp:182-217 | not ready: nothing changes; ready: advertised, depth update time set, flag as DepthFrameReaction says, and the log grows by the cloud and/or depth image exactly when the reaction fills them; the invariant is kept |
| DepthCamera.GazeboRosDepthCamera.OnNewRGBPointCloud | gazebo_plugins/src/gazebo_ros_depth_camera.cpp:221-282 | not ready: nothing changes; ready: advertised, depth update time set, flag as RgbCloudReaction says, and the column-major RGB cloud is published, dense, exactly when the reaction says so |
| DepthCamera.GazeboRosDepthCamera.OnNewImageFrame | gazebo_plugins/src/gazebo_ros_depth_camera.cpp:286-310 | not ready: nothing changes; ready: advertised, sensor update time set, flag as ImageFrameReaction says, and the frame is forwarded to the camera utilities exactly when the reaction says so |
| DepthCamera.GazeboRosDepthCamera.PublishCameraInfo | gazebo_plugins/src/gazebo_ros_depth_camera.cpp:481-496 | always delegates the generic camera-info; publishes the depth camera-info at the current time iff there is a subscriber and a full period has passed, and only then records that time; the sensor update time is refreshed iff there is a subscriber |
| DepthCamera.GazeboRosDepthCamera.PublishDepthInfo | gazebo_plugins/src/gazebo_ros_depth_camera.cpp:490-494 | appends the publish time and records it; consecutive publishes stay at least one period apart |
| DepthCamera.SubscribeThenDepthFrame | gazebo_plugins/src/gazebo_ros_depth_camera.cpp:137-208 | on a ready camera, a point-cloud connect followed by a depth frame publishes the frame's cloud at once |
| DepthCamera.UnsubscribeStrandsDepthImage | gazebo_plugins/src/gazebo_ros_depth_camera.cpp:145-216 | on a ready camera with one point-cloud and some depth-image subscribers, the point-cloud disconnect followed by a depth frame leaves the sensor off and publishes nothing |

## Left out

- `Load` (configuration through the SDF elements, topic names, the cutoff default of 0.4, and the camera utilities' own loading) is left out: its results (initialised flag, frame size, cutoff, update period) are constructor inputs.
- The camera utilities' cached colour image, which the point cloud is coloured from, is written by base-class code (the camera utilities' `PutCameraData`), which is not modelled. Each depth frame takes that image as it stands at the frame as a parameter.
- The ROS transport is left out. That covers the advertise options, the publishers, the callback queue, message headers (frame id, stamps split into sec/nsec), the point-cloud message's width, height and row step, and `pcl::toROSMsg` serialisation. Publishing is an event in a ghost log.
- The connect hooks of the colour image topic belong to the camera utilities, which are not part of this model. The image counter moves here only through the point-cloud hooks and otherwise starts at a constructor value.
- The grid shape of the published point clouds is left out. The code sets the message's width and height at `gazebo_plugins/src/gazebo_ros_depth_camera.cpp:321-322` (and 246-247), but `pcl::toROSMsg` at :438 then overwrites them with those of a pcl cloud whose width and height were never set, so as written the published cloud is not organised. The model covers only the order and contents of the points.
- FillDepthImageHelper: the buffer is kept when its size already matches; on any other size the model allocates a new array, whereas `std::vector::resize` at :452 may keep its storage whenever the new size fits the capacity. No contract depends on that choice.
- The lock around the fill methods is left out: the model is single-threaded.
- The tan/atan2 projection (focal length from the horizontal field of view, the angle of each column and row, and 0 for a single row or column) is abstract. `Projection` gives each column's and row's tangent.
- IEEE floating point is left out. Depths are reals and NaN is a datatype case. Float/double conversions and the float comparison against the double cutoff are not modelled.
- The unsigned 32-bit wrap-around of the index products (`j * _width + i`, `4 * index`, `rows_arg * cols_arg * 3`) is not modelled. The model's preconditions demand frames whose buffers hold rows*cols (or 4*width*height) values, which the sensor guarantees.
- The packed colour of OnNewRGBPointCloud is kept as one real. Its bit reinterpretation is not modelled.
- The debug print of the centre pixel's colour in OnNewRGBPointCloud is left out.
- `GazeboRosCameraUtils::PublishCameraInfo` and `PutCameraData` are base-class code. They are logged as `CameraInfoDelegated` and `CameraDataPut`; what they do inside is not modelled.
- The callbacks' unused parameters (`_depth`, `_format`, and `step_arg` of the helpers) are left out, as are the destructor and the commented-out disparity image.
- `GetLastUpdateTime` and `GetSimTime` are parameters of the callbacks that read them.
