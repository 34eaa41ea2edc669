# Acid / Flounder engine: window state, loaded-value tree, skeleton loader, blur cache, keyframes

This project models, in Dafny, five small stateful pieces of the Acid (formerly
Flounder) game engine and proves what their code promises:

- **Display window state** (`Devices`): the display module's size, fps-limit,
  antialiasing and window-flag fields. The width and height in use are the
  fullscreen ones in fullscreen mode and the windowed ones otherwise; the two
  setters change exactly one field each (their `modifies` frames name that
  field alone). An fps limit of -1 means "no limit".
- **LoadedValue tree node** (`Files`): a named node with a string value, an
  attribute map and an ordered child list. `SetChild` is an upsert: it
  overwrites the value of the child that has the name, or appends one new
  child with that name and this node as parent. `std::to_string` is a function
  parameter (`toString`), so nothing is assumed about it. `ValueTree` is an
  immutable snapshot of such a subtree, which is how the skeleton loader reads
  a parsed file.
- **Skeleton loader** (`Skeleton`): `GetBoneIndex` is a first-match linear
  search returning -1 on a miss. `LoadJointData` walks the `"node"`
  hierarchy and builds a joint tree of (index, name, transform, children),
  counting the joints it builds in `jointCount`. Three pure functions
  (`ExtractJoint`, `LoadJoint`, `LoadJoints`) specify the walk. The lemmas
  prove the tree's shape, that every joint is indexed by its own name, and
  that only the head joint gets the root correction. A lookup that yields
  null where the code then dereferences it is modelled as
  `Err(NullChild(name))`.
- **Blur pipeline resize cache** (`PostPipelines`): `Render` rebuilds the
  output texture and rebinds both filters' `"writeColour"` attachment exactly
  when the display size (read into `uint32_t`, i.e. reduced modulo 2^32)
  differs from the last size seen. It then resets both filter directions.
  `Render` records each output it leaves in a ghost history; `RenderAll`
  proves that over a run of renders this history changes exactly `Rebuilds`
  times, so the lemmas about `Rebuilds` hold for the pipeline itself, and
  `RenderTwice` that a second render at one size replaces nothing.
- **KeyframeData** (`Keyframes`): a time stamp plus an append-only list of
  joint transforms.

`Lookup.FirstIndexOf` is the first-match search the model uses for bone
indices and for name lookups among children; `Files.FirstWithAttribute` is
the first-match search for a child by name and attribute. `Wrappers` holds `Option`
and `Result`.

`Render` has no zero-size guard: a change to a 0-wide display size rebuilds
the output with a zero-width texture (PipelineBlur.cpp:24-28), and the model
does the same.

## Model

| member | source | states |
|---|---|---|
| Devices.Display.GetWidth | Flounder.Core/src/devices/Display.hpp:119 | the width in use is the fullscreen width when fullscreen, otherwise the window width; as a function it changes no field |
| Devices.Display.GetHeight | Flounder.Core/src/devices/Display.hpp:131 | the height in use is the fullscreen height when fullscreen, otherwise the window height; it changes no field |
| Devices.Display.GetWindowWidth | Flounder.Core/src/devices/Display.hpp:125 | returns the stored window width whatever the mode; out of fullscreen it is the width in use |
| Devices.Display.GetWindowHeight | Flounder.Core/src/devices/Display.hpp:137 | returns the stored window height whatever the mode; out of fullscreen it is the height in use |
| Devices.Display.GetAspectRatio | Flounder.Core/src/devices/Display.hpp:143 | returns the stored aspect ratio |
| Devices.Display.GetTitle | Flounder.Core/src/devices/Display.hpp:156 | returns the stored window title |
| Devices.Display.GetIcon | Flounder.Core/src/devices/Display.hpp:168 | returns the stored icon file name |
| Devices.Display.GetFpsLimit | Flounder.Core/src/devices/Display.hpp:180 | returns the stored fps limit, which is -1 exactly when the display is not limited |
| Devices.Display.IsFpsLimited | Flounder.Core/src/devices/Display.hpp:183 | the display is fps-limited exactly when the stored limit is not -1 ("-1 disables limits") |
| Devices.Display.IsAntialiasing | Flounder.Core/src/devices/Display.hpp:192 | returns the stored antialiasing request |
| Devices.Display.IsFullscreen | Flounder.Core/src/devices/Display.hpp:204 | returns the fullscreen flag; when it is set, the size in use is the fullscreen size |
| Devices.Display.IsClosed | Flounder.Core/src/devices/Display.hpp:222 | returns the stored closed flag |
| Devices.Display.IsFocused | Flounder.Core/src/devices/Display.hpp:228 | returns the stored focus flag |
| Devices.Display.GetWindowXPos | Flounder.Core/src/devices/Display.hpp:234 | returns the stored window x position |
| Devices.Display.GetWindowYPos | Flounder.Core/src/devices/Display.hpp:240 | returns the stored window y position |
| Devices.WindowedSizeInUse | Flounder.Core/src/devices/Display.hpp:119-137 | out of fullscreen, the size in use equals GetWindowWidth/GetWindowHeight, which return the windowed size whatever the flag |
| Devices.Display.SetFpsLimit | Flounder.Core/src/devices/Display.hpp:176-186 | afterwards GetFpsLimit() is the given limit, the display is limited exactly when it is not -1, and only the fps-limit field may change (so width and height in use are kept) |
| Devices.Display.SetAntialiasing | Flounder.Core/src/devices/Display.hpp:188-198 | afterwards IsAntialiasing() is the given flag, and only that field may change |
| Lookup.FirstIndexOf | Sources/Animations/Skeleton/SkeletonLoader.cpp:70-81 | the result is -1 exactly when the name is absent; otherwise it is an in-range position holding the name with no earlier occurrence |
| Files.LoadedValue.constructor | Sources/Files/LoadedValue.hpp:22 | a new node holds the given parent, name, value and attributes and no children |
| Files.LoadedValue.GetName | Sources/Files/LoadedValue.hpp:26 | returns the stored name; SetName is its partner |
| Files.LoadedValue.GetValue | Sources/Files/LoadedValue.hpp:30 | returns the stored value; SetValue, Set and SetChild are its partners |
| Files.LoadedValue.GetAttributes | Sources/Files/LoadedValue.hpp:46 | returns the stored attribute map |
| Files.LoadedValue.SetName | Sources/Files/LoadedValue.hpp:26-28 | GetName() returns the new name; only the name field may change |
| Files.LoadedValue.SetValue | Sources/Files/LoadedValue.hpp:30-32 | GetValue() returns the new value; only the value field may change |
| Files.LoadedValue.Set | Sources/Files/LoadedValue.hpp:79-83 | GetValue() becomes to_string(data); only the value field may change |
| Files.LoadedValue.GetChild | Sources/Files/LoadedValue.hpp:36 | null exactly when no child has the name; otherwise a child with that name |
| Files.LoadedValue.SetChild | Sources/Files/LoadedValue.hpp:56-70 | with no child of that name, exactly one fresh child is appended at the end, with that name, value to_string(v), parent this, no children and no attributes, and earlier children keep their order; with one, the child list is unchanged and only that child's value becomes to_string(v); in both cases GetChild(name) then reads back to_string(v), and no other object changes |
| Files.SetChildTwice | Sources/Files/LoadedValue.hpp:56-70 | two SetChild calls with one name grow the child list by at most one, and the second value is the one read back |
| Files.ValueTree.GetChild | Sources/Files/LoadedValue.hpp:36 | on a snapshot: None exactly when no child has the name; otherwise a child with that name |
| Files.ValueTree.GetString | Sources/Files/LoadedValue.hpp:85 | on a snapshot: the node's text is its value (an assumption, see Left out) |
| Files.ValueTree.GetChildWithAttribute | Sources/Files/LoadedValue.hpp:40 | on a snapshot: None exactly when no child has that name and attribute value; otherwise such a child |
| Files.ArmatureFound | Sources/Animations/Skeleton/SkeletonLoader.cpp:13 | whenever a scene has a "node" child whose "-id" is a child holding "Armature" (the form the loader reads ids in, line 47), the Armature lookup finds a node |
| Skeleton.Size | Sources/Animations/Skeleton/SkeletonLoader.cpp:66-67 | the number of joints in a tree, which is what the loader's counter grows by; at least one |
| Skeleton.SizeAll | Sources/Animations/Skeleton/SkeletonLoader.cpp:31-34 | the number of joints in a list of trees; at least one per tree |
| Skeleton.ExtractJoint | Sources/Animations/Skeleton/SkeletonLoader.cpp:45-68 | succeeds exactly when the node has a "-id" child and a "matrix" child holding "#text"; the joint is then a leaf named by the "-id" text, indexed by that name's first bone-order position, and corrected exactly when isRoot is set |
| Skeleton.LoadJoint | Sources/Animations/Skeleton/SkeletonLoader.cpp:23-43 | fails with ExtractJoint's error when the node's own joint cannot be read; on success its root is the joint ExtractJoint reads, with children attached, and it is a leaf when there is no "node" child |
| Skeleton.LoadJoints | Sources/Animations/Skeleton/SkeletonLoader.cpp:31-34 | on success, exactly one joint per node (LoadJointsPerNode says which joint each is, and LoadJointsPrefixFails that a failure in a prefix is the result) |
| Skeleton.LoadSkeleton | Sources/Animations/Skeleton/SkeletonLoader.cpp:7-16 | on success, the head joint carries the root correction and the index of its own name; with no "visual_scene" it fails on that lookup |
| Skeleton.SkeletonLoader.GetBoneIndex | Sources/Animations/Skeleton/SkeletonLoader.cpp:70-81 | returns -1 exactly when the name is not in the bone order; a non-negative result is in range, holds the name, and no lower index holds it (first match) |
| Skeleton.SkeletonLoader.ExtractMainJointData | Sources/Animations/Skeleton/SkeletonLoader.cpp:45-68 | returns the leaf joint named by the node's "-id" text and indexed by GetBoneIndex of that text, or the failed lookup; the joint count grows by exactly one on success |
| Skeleton.SkeletonLoader.LoadJointData | Sources/Animations/Skeleton/SkeletonLoader.cpp:23-43 | the result is the joint tree LoadJoint specifies, and on success the joint count grew by exactly the number of joints in that tree |
| Skeleton.SkeletonLoader.LoadJointList | Sources/Animations/Skeleton/SkeletonLoader.cpp:31-34 | the loop builds the joints of the nodes in order (LoadJoints), stopping at the first failure, and counts each joint it builds |
| Skeleton.SkeletonLoader.constructor | Sources/Animations/Skeleton/SkeletonLoader.cpp:7-16 | the armature data is the "node" with "-id" Armature under "visual_scene" (none when there is no scene); the head joint is the tree loaded from the Armature's "node" child with isRoot set, and on success the joint count equals that tree's size |
| Skeleton.LoadJointShape | Sources/Animations/Skeleton/SkeletonLoader.cpp:23-48 | a loaded joint is named by its node's "-id" text and indexed by that name's position; with no "node" child it is a leaf; with a "node" child without "-id" its children are that child's children loaded in order; otherwise it has exactly one child, loaded from the "node" child itself (that child always has children, since "-id" is one); a node without "-id" fails |
| Skeleton.LoadJointsPerNode | Sources/Animations/Skeleton/SkeletonLoader.cpp:31-34 | a successful loop yields one joint per grandchild node, in order, each loaded with isRoot false |
| Skeleton.LoadJointIndexed | Sources/Animations/Skeleton/SkeletonLoader.cpp:47-48 | every joint of a loaded tree carries the bone-order index of its own name |
| Skeleton.LoadJointsIndexed | Sources/Animations/Skeleton/SkeletonLoader.cpp:31-34 | every tree the loop loads is indexed by name throughout |
| Skeleton.LoadJointRootOnly | Sources/Animations/Skeleton/SkeletonLoader.cpp:15 | the joint built with isRoot carries the root correction exactly when isRoot is set, and no joint below it carries it, since every recursive call passes false (lines 33 and 38) |
| Skeleton.LoadJointsRootOnly | Sources/Animations/Skeleton/SkeletonLoader.cpp:33 | no joint of any tree the loop loads carries the root correction |
| PostPipelines.ToU32 | Sources/Post/Pipelines/PipelineBlur.cpp:21-22 | the uint32_t the display size is read into is below 2^32, congruent to the int it came from, and equal to it when it already fits |
| PostPipelines.DisplayExtent | Sources/Post/Pipelines/PipelineBlur.cpp:21-22 | both dimensions of the size Render reads fit in 32 bits and equal the display's when those already fit |
| PostPipelines.DisplayExtents | Sources/Post/Pipelines/PipelineBlur.cpp:21-22 | the sizes a run of renders reads: one per render, in order |
| PostPipelines.NeedsRebuild | Sources/Post/Pipelines/PipelineBlur.cpp:24 | a rebuild is needed exactly when the size read differs from the last size seen |
| PostPipelines.LastOf | Sources/Post/Pipelines/PipelineBlur.cpp:33-34 | the last size seen after a run is the starting one for an empty run, otherwise one of the run's sizes (the final one) |
| PostPipelines.Rebuilds | Sources/Post/Pipelines/PipelineBlur.cpp:24-35 | the number of rebuilds of a run of renders, at most one per render |
| PostPipelines.RebuildsSnoc | Sources/Post/Pipelines/PipelineBlur.cpp:24-35 | one more render adds one rebuild exactly when its size differs from the last size seen |
| PostPipelines.Replacements | Sources/Post/Pipelines/PipelineBlur.cpp:28 | the number of output replacements in a history of outputs, at most one per step |
| PostPipelines.ScaledExtent | Sources/Post/Pipelines/PipelineBlur.cpp:26-27 | the texture extent is scale times the display extent truncated to a whole number, and 0 for a non-positive scale |
| PostPipelines.Texture.constructor | Sources/Post/Pipelines/PipelineBlur.cpp:28 | a new output texture has exactly the width and height it is created with |
| PostPipelines.FilterBlur.constructor | Sources/Post/Pipelines/PipelineBlur.cpp:9-10 | a new blur filter has the given direction and no attachments |
| PostPipelines.PipelineBlur.constructor | Sources/Post/Pipelines/PipelineBlur.cpp:7-17 | a new pipeline has a null output, last size 0 by 0, the vertical filter at (0, scale) and the horizontal filter at (scale, 0) |
| PostPipelines.PipelineBlur.Render | Sources/Post/Pipelines/PipelineBlur.cpp:19-41 | afterwards the last size is the display's size; exactly when it changed, a fresh output of the scaled size is bound as both filters' "writeColour" attachment, and otherwise output and attachments are untouched; the directions become (0, scale) and (scale, 0); the output it leaves is appended to a ghost history of outputs; scale and blur are constants |
| PostPipelines.RenderAll | Sources/Post/Pipelines/PipelineBlur.cpp:19-35 | over a run of renders, the history of output objects that Render records grows by one entry per render and changes exactly Rebuilds times, the number of renders whose size differs from the last one seen; the last size seen is the run's final one |
| PostPipelines.RenderTwice | Sources/Post/Pipelines/PipelineBlur.cpp:24-35 | two renders at one size rebuild at most once: the recorded history ends in the same output twice, so the second render replaces nothing; the output is fresh exactly when the size changed, and each filter's attachments are the old ones with "writeColour" bound to it on a change and untouched otherwise |
| PostPipelines.RebuildsAtOneSize | Sources/Post/Pipelines/PipelineBlur.cpp:24-35 | any run of renders at one size rebuilds once if that size differs from the last one seen, and never otherwise |
| PostPipelines.RebuildsNeedChange | Sources/Post/Pipelines/PipelineBlur.cpp:24-35 | a run of renders rebuilds at all only if some size in it differs from the starting one |
| PostPipelines.FilterBlur.SetAttachment | Sources/Post/Pipelines/PipelineBlur.cpp:30-31 | binding stores the texture under the name and keeps every other attachment |
| PostPipelines.FilterBlur.SetDirection | Sources/Post/Pipelines/PipelineBlur.cpp:40-41 | the filter's direction becomes the given vector |
| Keyframes.KeyframeData.constructor | Sources/Animations/Keyframe/KeyframeData.cpp:5-8 | a new keyframe stores the given time and an empty transform list |
| Keyframes.KeyframeData.AddJointTransform | Sources/Animations/Keyframe/KeyframeData.cpp:15-18 | the list grows by exactly one, the new transform is last, earlier elements keep their order, and only the list may change (the time is untouched) |

## Left out

- Display's graphics bootstrap: instance, debug callback, surface, device selection and scoring, logical device, queues, `Update` and `Screenshot`. Their bodies are not part of this model; only declarations exist, and the work is foreign graphics/windowing API calls.
- Display's `SetWindowSize`, `SetTitle`, `SetIcon` and `SetFullscreen`, and the OS callbacks that update size, position, focus and the closed flag. They are declared only.
- Devices.Display.GetAspectRatio, GetTitle, GetIcon, IsClosed, IsFocused, GetWindowXPos and GetWindowYPos, and Files.LoadedValue.GetAttributes and Files.ValueTree.GetString: their contracts only name the field they read. The setters and callbacks that would write those fields are declared only, so these reads have no partner in the model.
- Display's constructor: its body is not part of this model, so a new `Display` has unconstrained fields.
- `Display::Get()`, the global module lookup: the blur pipeline takes the display size as `Render` parameters.
- Floating point: `m_fpsLimit`, `m_aspectRatio`, `m_scale`, `m_blur` and `KeyframeData`'s `m_time` are exact reals. `ScaledExtent` truncates an exact product, so float rounding and an out-of-range `static_cast<uint32_t>` are not modelled.
- `LoadedValue`: the bodies of `GetChild`, `GetChildWithAttribute` and `GetString` are not shown in LoadedValue.hpp. The model defines them by assumption (a first match by name; a first match by name and attribute value, the attribute held either in the attribute map or as a child of that name; the node's value), with their default flags: no child is added and error reporting is left out. The lines below say what each contract promises.
- `LoadedValue`'s `GetChild` by index, `GetAttribute`, `AddAttribute`, `RemoveAttribute`, `AddChild`, `SetString` and `PrintDebug` are declared only, and are not modelled. `Get<T>` reads the value and converts it with `FormatString::ConvertTo<T>`, whose body is not shown, so it is not modelled either.
- Files.LoadedValue.constructor: its body is not shown (LoadedValue.hpp:22). Storing the four arguments and starting with no children is an assumption, and `SetChild`'s clause about the appended child rests on it.
- Files.LoadedValue.GetChild: implemented as a first match, so it is deterministic; `SetChild`'s read-back clause relies on that, while the contract itself promises only "a child with that name, or null when none".
- Files.LoadedValue.SetChild: requires that a node is not its own child, the tree shape every loaded file has; the code does not check it.
- Files.ValueTree.GetChildWithAttribute: a child qualifies when the attribute is in its attribute map or is a child of that name whose text matches (the loader reads a node's `"-id"` as a child, SkeletonLoader.cpp:47); which form a parsed file uses is an assumption, since the body is not shown.
- Files.ValueTree.GetString: taken to be the node's value, an assumption since the body is not shown.
- No function ties a `LoadedValue` object graph to a `ValueTree` snapshot. The loader reads snapshots, and parent pointers are absent from them.
- `ExtractMainJointData`'s matrix parsing (`Split`, `stof`, `Transpose`, the `CORRECTION` product): a joint's transform is kept as its matrix text and a flag saying whether the root correction applies.
- Skeleton.SkeletonLoader.ExtractMainJointData: in the code, a `"#text"` token that is not a number makes `std::stof` throw, and more than 16 tokens write past `m_linear` (SkeletonLoader.cpp:53-55). Both failures happen before `m_jointCount++`. The model returns `Ok` and counts the joint in both cases, because `FormatString::Split` is not part of this model. `ExtractJoint`, `LoadJoint`, `LoadJoints` and `LoadSkeleton` inherit this.
- Skeleton.SkeletonLoader.GetBoneIndex: the conversion of the `unsigned int` position to `int` is taken as exact, so bone lists longer than 2^31 are not modelled.
- Null dereferences (a missing `"-id"`, `"matrix"`, `"#text"`, `"visual_scene"`, Armature or head node) are undefined behaviour in the code; the model returns `Err(NullChild(name))`, with `NullChild("Armature")` for the armature, `ExtractMainJointData` leaves the joint count unchanged when it returns `Err`, while `LoadJointData`, `LoadJointList` and the constructor leave the count unspecified on that path.
- `FilterBlur`'s source is not part of this model. `SetAttachment` and `SetDirection` are plain stores, a new filter has no attachments, its blur type is dropped, and `FilterBlur::Render` (GPU work) is left out, as is `Texture`'s GPU image.
- Memory ownership and destructors (`delete m_headJoint`, raw pointer lifetimes, `unique_ptr` release of the old output).
- `JointTransformData`'s contents: `KeyframeData` is generic in the transform type.
- The context headers `rendererdeferred.h` and `worlds.h` and the debug overlay: declarations and UI code outside this core.
