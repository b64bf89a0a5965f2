/** Registering and dropping the framework's callback starts and stops the uevent thread. */
module CallbackLifecycle {

  import opened Options

  class Usb {
    var mCallback: Option<nat>
    var destroyThread: bool
    // The thread created and not yet joined, numbered by creation.
    var mPoll: Option<nat>
    var created: nat
    ghost var joined: nat

    // One thread exactly while a callback is registered; it is not told to stop, and
    // every thread before it has been joined.
    ghost predicate Valid()
      reads this
    {
      && (mPoll.Some? <==> mCallback.Some?)
      && (mPoll.Some? ==> mPoll.value == created - 1 && !destroyThread)
      && created == joined + if mPoll.Some? then 1 else 0
    }

    constructor ()
      ensures Valid() && mCallback == None && created == 0
    {
      mCallback, destroyThread, mPoll, created, joined := None, false, None, 0, 0;
    }

    // `creates` is whether pthread_create succeeds; signalling and joining always do.
    method SetCallback(callback: Option<nat>, creates: bool)
      requires Valid()
      modifies this
      ensures Valid()
      ensures mCallback == if callback.Some? && old(mCallback).None? && !creates then None else callback
      ensures created == old(created) + if callback.Some? && old(mCallback).None? && creates then 1 else 0
      ensures callback.Some? == old(mCallback).Some? ==>
                mPoll == old(mPoll) && destroyThread == old(destroyThread) && joined == old(joined)
      // a thread that is no longer wanted is told to stop, and joined
      ensures callback.None? && old(mCallback).Some? ==> destroyThread && mPoll == None && joined == old(joined) + 1
      ensures callback.Some? && old(mCallback).None? ==>
                !destroyThread && mPoll == (if creates then Some(old(created)) else None) && joined == old(joined)
    {
      if (mCallback == None && callback == None) || (mCallback != None && callback != None) {
        mCallback := callback;
        return;
      }
      mCallback := callback;
      if mCallback == None {
        destroyThread := true;
        mPoll := None;
        joined := joined + 1;
        return;
      }
      destroyThread := false;
      if creates {
        mPoll := Some(created);
        created := created + 1;
      } else {
        mCallback := None;
      }
    }
  }
}
