/**
 * One keyframe of an animation: its time stamp and the joint transforms
 * recorded at that time, in the order they were added.  The transform type
 * is a parameter; its contents are not part of this model.
 */
module Keyframes {

  class KeyframeData<JointTransform> {
    var time: real
    var jointTransforms: seq<JointTransform>

    /** A keyframe at `time` with no transforms yet. */
    constructor (time: real)
      ensures this.time == time && jointTransforms == []
    {
      this.time := time;
      jointTransforms := [];
    }

    /**
     * Appends one transform: the list grows by one, ends with `transform`,
     * keeps every earlier element in place, and the time is untouched.
     */
    method AddJointTransform(transform: JointTransform)
      modifies this`jointTransforms
      ensures jointTransforms == old(jointTransforms) + [transform]
      ensures |jointTransforms| == |old(jointTransforms)| + 1
      ensures jointTransforms[|jointTransforms| - 1] == transform
      ensures jointTransforms[..|old(jointTransforms)|] == old(jointTransforms)
    {
      jointTransforms := jointTransforms + [transform];
    }
  }
}
