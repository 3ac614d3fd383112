/** The port worker (socket/nearlink_socket_manager.cpp, class WorkerThread) with each
    handler taken as one call; `WorkerProtocol` models how the calls interleave. */
module WorkerThread {

  const SOCKET_BUFFER_SIZE := 51200

  class Worker {
    var callbacks: set<nat>
    var running: bool
    var joinable: bool   // thread_ refers to a thread
    var alive: bool      // that thread has not returned from Run
    var wake: nat        // bytes in the wake socket

    /** Between calls: a worker exists exactly when some descriptor has a callback, and
        no wake byte is left over. */
    ghost predicate Valid()
      reads this
    {
      && Synced()
      && (running <==> callbacks != {})
    }

    ghost predicate Synced()
      reads this
    {
      running == alive == joinable && wake == 0
    }

    constructor ()
      ensures Valid() && callbacks == {}
    {
      callbacks, running, joinable, alive, wake := {}, false, false, false, 0;
    }

    /** `std::thread::join`. The worker returns only after it reads running == false, so
        waiting for a live one with the flag set would never end. `consumed` tells
        whether the worker read the wake socket before it returned. */
    method Join(consumed: bool)
      requires joinable
      requires alive ==> !running
      modifies this
      ensures !joinable && !alive
      ensures callbacks == old(callbacks) && running == old(running)
      ensures wake <= old(wake)
    {
      if alive && consumed {
        wake := if wake <= 1024 then 0 else wake - 1024;
      }
      alive := false;
      joinable := false;
    }

    /** Sets the flag before it joins the previous thread, which therefore must have
        ended already. */
    method Start()
      requires !running && !alive && wake == 0
      modifies this
      ensures Synced() && running && callbacks == old(callbacks)
    {
      running := true;
      if joinable {
        Join(false);
      }
      joinable, alive := true, true;
    }

    /** Reads until the socket is drained. */
    method ClearData()
      modifies this
      ensures wake == 0
      ensures callbacks == old(callbacks) && running == old(running)
      ensures joinable == old(joinable) && alive == old(alive)
    {
      while wake > 0
        invariant callbacks == old(callbacks) && running == old(running)
        invariant joinable == old(joinable) && alive == old(alive)
        decreases wake
      {
        wake := if wake <= SOCKET_BUFFER_SIZE then 0 else wake - SOCKET_BUFFER_SIZE;
      }
    }

    /** Leaves an empty wake socket whether or not the write worked and the worker
        consumed the byte. */
    method Stop(written: bool, consumed: bool)
      requires Synced()
      modifies this
      ensures Synced() && !running && callbacks == old(callbacks)
    {
      running := false;
      if written {
        wake := wake + 1;
      }
      if joinable {
        Join(consumed);
      }
      if written {
        ClearData();
      }
    }

    method RunThread()
      requires Synced()
      modifies this
      ensures Synced() && running && callbacks == old(callbacks)
    {
      if !running {
        Start();
      }
    }

    method StopThread(written: bool, consumed: bool)
      requires Synced()
      modifies this
      ensures Synced() && callbacks == old(callbacks)
      ensures running == (old(running) && callbacks != {})
    {
      if callbacks == {} && running {
        Stop(written, consumed);
      }
    }

    /** A CONNECTED event: `RegisterCallback`, then `RunThread`. */
    method Connect(fd: nat)
      requires Valid()
      modifies this
      ensures Valid() && callbacks == old(callbacks) + {fd}
    {
      callbacks := callbacks + {fd};
      RunThread();
    }

    /** A destroyed socket entry: `DeregisterCallback`, then `RemoveFd`. */
    method Destroy(fd: nat, written: bool, consumed: bool)
      requires Valid()
      modifies this
      ensures Valid() && callbacks == old(callbacks) - {fd}
    {
      callbacks := callbacks - {fd};
      StopThread(written, consumed);
    }
  }
}
