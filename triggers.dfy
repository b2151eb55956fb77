/** Rollover triggers: by size, by time, and any of several. */
module Triggers {
  import opened FilePatterns

  /** What a trigger sees of the rolling file handler: the current file
      length, the creation time of the file, and the handler's file pattern. */
  class RollingHandlerView {
    var length: int
    const initialTime: int
    const pattern: FilePattern

    constructor (length: int, initialTime: int, pattern: FilePattern)
      ensures this.length == length && this.initialTime == initialTime && this.pattern == pattern
    {
      this.length := length;
      this.initialTime := initialTime;
      this.pattern := pattern;
    }
  }

  /** `SizeBasedTrigger`: fires once the file is longer than `maxFileSize`. */
  class SizeBasedTrigger {
    const maxFileSize: int
    var handler: RollingHandlerView?
    var filePattern: FilePattern?

    constructor (maxFileSize: int)
      ensures this.maxFileSize == maxFileSize && handler == null && filePattern == null
    {
      this.maxFileSize := maxFileSize;
      handler := null;
      filePattern := null;
    }

    /** `initialize`: remembers the handler and its file pattern. */
    method Initialize(h: RollingHandlerView)
      modifies this
      ensures handler == h && filePattern == h.pattern
    {
      handler := h;
      filePattern := h.pattern;
    }

    /** `isTriggeringEvent`: fires exactly when the length is above the
        maximum (strictly), and then closes the current file time. */
    method IsTriggeringEvent() returns (fired: bool)
      requires handler != null && filePattern != null
      modifies filePattern
      ensures fired <==> handler.length > maxFileSize
      ensures fired ==> filePattern.prevFileTime == old(filePattern.nextFileTime) &&
                        filePattern.nextFileTime == old(filePattern.nextFileTime)
      ensures !fired ==> unchanged(filePattern)
    {
      fired := handler.length > maxFileSize;
      if fired {
        filePattern.UpdateTime();
      }
    }
  }

  /** `TimeBasedTrigger`: fires once an event is later than the next rollover
      time, and then asks the pattern for the following one. */
  class TimeBasedTrigger {
    const interval: int
    const modulate: bool
    var filePattern: FilePattern?
    var nextRollover: int
    var handler: RollingHandlerView?

    constructor (interval: int, modulate: bool)
      ensures this.interval == interval && this.modulate == modulate
      ensures filePattern == null && handler == null && nextRollover == 0
    {
      this.interval := interval;
      this.modulate := modulate;
      filePattern := null;
      nextRollover := 0;
      handler := null;
    }

    /** `initialize`: two calls of `getNextTime` from the file's creation time,
        the first to set the pattern's next file time, the second to move it
        to the previous file time; the second answer is the next rollover. */
    method Initialize(h: RollingHandlerView, nextTimes: NextTimes)
      requires h.pattern.frequency.Some?
      modifies this, h.pattern
      ensures handler == h && filePattern == h.pattern
      ensures nextRollover == nextTimes(h.pattern.frequency.value, h.initialTime, interval, modulate).0
      ensures h.pattern.prevFileTime == h.pattern.nextFileTime ==
              nextTimes(h.pattern.frequency.value, h.initialTime, interval, modulate).1
    {
      handler := h;
      filePattern := h.pattern;
      var _ := filePattern.GetNextTime(h.initialTime, interval, modulate, nextTimes);
      nextRollover := filePattern.GetNextTime(h.initialTime, interval, modulate, nextTimes);
    }

    /** `isTriggeringEvent` for an event stamped `now`: never while the file is
        empty; otherwise fires exactly when `now` is past the next rollover. */
    method IsTriggeringEvent(now: int, nextTimes: NextTimes) returns (fired: bool)
      requires handler != null && filePattern != null && filePattern.frequency.Some?
      modifies this, filePattern
      ensures handler == old(handler) && filePattern == old(filePattern)
      ensures fired <==> handler.length != 0 && now > old(nextRollover)
      ensures fired ==>
        nextRollover == nextTimes(filePattern.frequency.value, now, interval, modulate).0 &&
        filePattern.prevFileTime == old(filePattern.nextFileTime) &&
        filePattern.nextFileTime == nextTimes(filePattern.frequency.value, now, interval, modulate).1
      ensures !fired ==> unchanged(this) && unchanged(filePattern)
    {
      if handler.length == 0 {
        return false;
      }
      if now > nextRollover {
        nextRollover := filePattern.GetNextTime(now, interval, modulate, nextTimes);
        return true;
      }
      return false;
    }
  }

  /** One component of a composite trigger. */
  datatype TriggerRef = SizeRef(size: SizeBasedTrigger) | TimeRef(time: TimeBasedTrigger)

  function Obj(t: TriggerRef): object
  {
    match t
    case SizeRef(s) => s
    case TimeRef(x) => x
  }

  /** The component was initialized with handler `h`. */
  predicate Ready(t: TriggerRef, h: RollingHandlerView)
    reads Obj(t)
  {
    match t
    case SizeRef(s) => s.handler == h && s.filePattern == h.pattern
    case TimeRef(x) => x.handler == h && x.filePattern == h.pattern && h.pattern.frequency.Some?
  }

  /** The decision the component makes for an event stamped `now`. */
  predicate WouldFire(t: TriggerRef, h: RollingHandlerView, now: int)
    reads Obj(t), h
  {
    match t
    case SizeRef(s) => h.length > s.maxFileSize
    case TimeRef(x) => h.length != 0 && now > x.nextRollover
  }

  /** Asks one component whether the event triggers a rollover. */
  method Ask(t: TriggerRef, ghost h: RollingHandlerView, now: int, nextTimes: NextTimes) returns (fired: bool)
    requires Ready(t, h)
    modifies Obj(t), h.pattern
    ensures Ready(t, h)
    ensures fired == old(WouldFire(t, h, now))
    ensures !fired ==> unchanged(Obj(t)) && unchanged(h.pattern)
  {
    match t {
      case SizeRef(s) =>
        fired := s.IsTriggeringEvent();
      case TimeRef(x) =>
        fired := x.IsTriggeringEvent(now, nextTimes);
    }
  }

  /** `CompositeTrigger`: the components, consulted in order. */
  class CompositeTrigger {
    const triggers: seq<TriggerRef>
    /** The handler given to `initialize`. */
    ghost var handler: RollingHandlerView?

    constructor (triggers: seq<TriggerRef>)
      ensures this.triggers == triggers && handler == null
    {
      this.triggers := triggers;
      handler := null;
    }

    ghost function Objects(): set<object>
    {
      set k | 0 <= k < |triggers| :: Obj(triggers[k])
    }

    ghost predicate Valid()
      reads this, Objects()
    {
      handler != null && forall k :: 0 <= k < |triggers| ==> Ready(triggers[k], handler)
    }

    /** `initialize`: every component, once each, in order, with the same handler. */
    method Initialize(h: RollingHandlerView, nextTimes: NextTimes)
      requires forall k :: 0 <= k < |triggers| && triggers[k].TimeRef? ==> h.pattern.frequency.Some?
      modifies this, Objects(), h.pattern
      ensures handler == h && Valid()
      ensures forall k :: 0 <= k < |triggers| && triggers[k].TimeRef? ==>
        triggers[k].time.nextRollover ==
        nextTimes(h.pattern.frequency.value, h.initialTime, triggers[k].time.interval, triggers[k].time.modulate).0
    {
      handler := h;
      var i := 0;
      while i < |triggers|
        invariant 0 <= i <= |triggers|
        invariant handler == h
        invariant forall j :: 0 <= j < i ==> Ready(triggers[j], h)
        invariant forall j :: 0 <= j < i && triggers[j].TimeRef? ==>
          triggers[j].time.nextRollover ==
          nextTimes(h.pattern.frequency.value, h.initialTime, triggers[j].time.interval, triggers[j].time.modulate).0
      {
        match triggers[i] {
          case SizeRef(s) =>
            s.Initialize(h);
          case TimeRef(x) =>
            x.Initialize(h, nextTimes);
        }
        i := i + 1;
      }
    }

    /** `isTriggeringEvent`: fires exactly when some component fires; the
        components are asked in order and the first that fires ends the
        round, so no later one updates its state. */
    method IsTriggeringEvent(now: int, nextTimes: NextTimes) returns (fired: bool)
      requires Valid()
      modifies Objects(), handler.pattern
      ensures Valid()
      ensures fired <==> exists k :: 0 <= k < |triggers| && old(WouldFire(triggers[k], handler, now))
      ensures !fired ==> unchanged(Objects()) && unchanged(handler.pattern)
      ensures fired ==>
                exists k :: 0 <= k < |triggers| && old(WouldFire(triggers[k], handler, now)) &&
                            (forall j :: 0 <= j < k ==> !old(WouldFire(triggers[j], handler, now))) &&
                            (forall j :: k < j < |triggers| && Obj(triggers[j]) != Obj(triggers[k]) ==>
                                           unchanged(Obj(triggers[j])))
    {
      var i := 0;
      while i < |triggers|
        invariant 0 <= i <= |triggers|
        invariant forall j :: 0 <= j < i ==> !old(WouldFire(triggers[j], handler, now))
        invariant unchanged(Objects()) && unchanged(handler.pattern)
      {
        assert Obj(triggers[i]) in Objects();
        fired := Ask(triggers[i], handler, now, nextTimes);
        if fired {
          assert forall j :: 0 <= j < |triggers| && Obj(triggers[j]) != Obj(triggers[i]) ==>
            Obj(triggers[j]) in Objects() && unchanged(Obj(triggers[j]));
          return;
        }
        i := i + 1;
      }
      return false;
    }
  }
}
