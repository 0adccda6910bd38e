/**
 `EventChannel` and `EpollPoller`: a channel keeps the events it wants, the poller keeps a
 map from file descriptors to channels and tells the kernel about every change. The
 kernel's interest set is a map from descriptors to masks with the rules of `epoll_ctl`.
 */
module Poller {

  /** A set of events as the kernel sees it. */
  type Mask = bv32

  const NoneEvent: Mask := 0
  const ReadEvent: Mask := 0x8000_0003     // EPOLLIN | EPOLLPRI | EPOLLET
  const WriteEvent: Mask := 0x4            // EPOLLOUT

  datatype Status = New | Added | Deleted

  /** A change of the mask takes an added channel that wants nothing out of the kernel set, any other one into it. */
  function Updated(status: Status, idle: bool): Status {
    if status == Added && idle then Deleted else Added
  }

  datatype Operation = Add | Modify | Delete

  /** The masks that enabling and disabling can produce. */
  predicate WellFormed(events: Mask) {
    events == NoneEvent || events == ReadEvent || events == WriteEvent || events == ReadEvent | WriteEvent
  }

  predicate Reads(events: Mask) {
    ReadEvent & events != 0
  }

  predicate Writes(events: Mask) {
    WriteEvent & events != 0
  }

  /** A well-formed mask is determined by its two flags, and each operation changes one of them. */
  lemma MaskLaws(e: Mask)
    requires WellFormed(e)
    ensures e == NoneEvent <==> !Reads(e) && !Writes(e)
    ensures WellFormed(e | ReadEvent) && Reads(e | ReadEvent) && Writes(e | ReadEvent) == Writes(e)
    ensures WellFormed(e | WriteEvent) && Writes(e | WriteEvent) && Reads(e | WriteEvent) == Reads(e)
    ensures WellFormed(e & !ReadEvent) && !Reads(e & !ReadEvent) && Writes(e & !ReadEvent) == Writes(e)
    ensures WellFormed(e & !WriteEvent) && !Writes(e & !WriteEvent) && Reads(e & !WriteEvent) == Reads(e)
  {
    assert ReadEvent & WriteEvent == 0;
  }

  class EventChannel {
    const fd: int
    const poller: EpollPoller      // through the event loop
    var events: Mask
    var status: Status             // poller_status_

    /**
     A new channel. Its descriptor may have been used before, by channels that have been
     removed from the loop since; the new channel replaces them in the auxiliary member set.
     */
    constructor (poller: EpollPoller, fd: int)
      requires poller.Valid() && poller.Unused(fd)
      modifies poller`members
      ensures this.poller == poller && this.fd == fd && events == NoneEvent && status == New
      ensures poller.members == (set c | c in old(poller.members) && c.fd != fd) + {this} && poller.Valid()
    {
      this.poller, this.fd, this.events, this.status := poller, fd, NoneEvent, New;
      new;
      assert poller.Mirrors(this, NoneEvent) by { poller.NobodyThere(fd); }
      poller.members := (set c | c in poller.members && c.fd != fd) + {this};
    }

    predicate IsNoneEvent() reads this { events == NoneEvent }
    predicate IsReading() reads this { Reads(events) }
    predicate IsWriting() reads this { Writes(events) }

    method EnableReading()
      requires this in poller.members && poller.Valid()
      modifies this, poller`channels, poller`kernel, poller`refused
      ensures poller.Valid() && IsReading() && IsWriting() == old(IsWriting()) && status == Added
    {
      MaskLaws(events);
      ghost var known := events;
      events := events | ReadEvent;
      poller.UpdateEventChannel(this, known);
    }

    method DisableReading()
      requires this in poller.members && poller.Valid()
      modifies this, poller`channels, poller`kernel, poller`refused
      ensures poller.Valid() && !IsReading() && IsWriting() == old(IsWriting())
      ensures status == Updated(old(status), IsNoneEvent())
    {
      MaskLaws(events);
      ghost var known := events;
      events := events & !ReadEvent;
      poller.UpdateEventChannel(this, known);
    }

    method EnableWriting()
      requires this in poller.members && poller.Valid()
      modifies this, poller`channels, poller`kernel, poller`refused
      ensures poller.Valid() && IsWriting() && IsReading() == old(IsReading()) && status == Added
    {
      MaskLaws(events);
      ghost var known := events;
      events := events | WriteEvent;
      poller.UpdateEventChannel(this, known);
    }

    method DisableWriting()
      requires this in poller.members && poller.Valid()
      modifies this, poller`channels, poller`kernel, poller`refused
      ensures poller.Valid() && !IsWriting() && IsReading() == old(IsReading())
      ensures status == Updated(old(status), IsNoneEvent())
    {
      MaskLaws(events);
      ghost var known := events;
      events := events & !WriteEvent;
      poller.UpdateEventChannel(this, known);
    }

    /** No interest is left; the kernel forgets the descriptor exactly if it knew it. */
    method DisableAll()
      requires this in poller.members && poller.Valid()
      modifies this, poller`channels, poller`kernel, poller`refused
      ensures poller.Valid() && IsNoneEvent() && !IsReading() && !IsWriting()
      ensures status == Updated(old(status), true) && (fd in poller.kernel <==> old(status) != Added)
    {
      MaskLaws(NoneEvent);
      ghost var known := events;
      events := NoneEvent;
      poller.UpdateEventChannel(this, known);
      poller.StatusExactly(this);
    }

    /** The poller's asserts: the channel is in the map and wants nothing. */
    method RemoveFromLoop()
      requires this in poller.members && poller.Valid()
      requires status != New && IsNoneEvent()
      modifies this, poller`channels, poller`kernel, poller`refused
      ensures poller.Valid() && status == New && events == old(events)
      ensures poller.kernel == old(poller.kernel) - {fd} && poller.channels == old(poller.channels) - {fd}
    {
      poller.RemoveEventChannel(this);
    }
  }

  class EpollPoller {
    var channels: map<int, EventChannel>    // evt_channel_list_
    var kernel: map<int, Mask>              // the interest set of epoll_fd_
    var refused: bool                       // epoll_ctl would have failed
    ghost var members: set<EventChannel>    // the channels of this loop, one for each descriptor

    constructor ()
      ensures Valid() && members == {} && kernel == map[] && channels == map[]
    {
      channels, kernel, refused, members := map[], map[], false, {};
    }

    /** Every channel that had this descriptor has been removed from the loop. */
    ghost predicate Unused(fd: int)
      reads this, members
    {
      forall c | c in members && c.fd == fd :: c.status == New
    }

    lemma NobodyThere(fd: int)
      requires Valid() && Unused(fd)
      ensures fd !in channels && fd !in kernel
    {
      forall c | c in members && c.fd == fd ensures fd !in channels && fd !in kernel {
        assert Mirrors(c, c.events);
      }
    }

    /**
     What the status of a channel says: `Added` exactly when the kernel holds its descriptor
     with its mask, `Deleted` when only the map holds it, `New` when neither does.
     */
    ghost predicate Mirrors(c: EventChannel, events: Mask)
      reads this, c
    {
      && WellFormed(events)
      && match c.status
         case New => c.fd !in channels && c.fd !in kernel && events == NoneEvent
         case Added => c.fd in channels && channels[c.fd] == c && c.fd in kernel && kernel[c.fd] == events
         case Deleted => c.fd in channels && channels[c.fd] == c && c.fd !in kernel && events == NoneEvent
    }

    /** Channels have different descriptors, and only theirs are known. */
    ghost predicate Members()
      reads this, members
    {
      && (forall c | c in members :: c.poller == this)
      && (forall c, d | c in members && d in members && c != d :: c.fd != d.fd)
      && (forall fd | fd in channels || fd in kernel :: exists c :: c in members && c.fd == fd)
    }

    ghost predicate Valid()
      reads this, members
    {
      && !refused && Members()
      && forall c | c in members :: Mirrors(c, c.events)
    }

    /** Everything is in order except that `c` has changed its mask from `known`. */
    ghost predicate ValidBut(c: EventChannel, known: Mask)
      reads this, members
    {
      && !refused && Members() && c in members && Mirrors(c, known) && WellFormed(c.events)
      && forall d | d in members && d != c :: Mirrors(d, d.events)
    }

    method UpdateEventChannel(c: EventChannel, ghost known: Mask)
      requires ValidBut(c, known)
      modifies c`status, this`channels, this`kernel, this`refused
      ensures Valid()
      ensures c.status == Updated(old(c.status), c.IsNoneEvent())
    {
      match c.status
      case New =>
        assert c.fd !in channels;
        Register(c, known);
      case Added =>
        assert c.fd in channels && channels[c.fd] == c;
        if c.IsNoneEvent() {
          UpdateEpollCtrl(Delete, c);
          c.status := Deleted;
        } else {
          UpdateEpollCtrl(Modify, c);
        }
      case Deleted =>
        assert c.fd in channels;
        Register(c, known);
    }

    /** Put the channel in the map, mark it added and tell the kernel. */
    method Register(c: EventChannel, ghost known: Mask)
      requires ValidBut(c, known) && c.status != Added
      modifies c`status, this`channels, this`kernel, this`refused
      ensures Valid() && c.status == Added
    {
      channels := channels[c.fd := c];
      c.status := Added;
      UpdateEpollCtrl(Add, c);
    }

    /** The status of a channel tells exactly where its descriptor is known. */
    lemma StatusExactly(c: EventChannel)
      requires Valid() && c in members
      ensures c.status == Added <==> c.fd in kernel && kernel[c.fd] == c.events
      ensures c.status == Deleted <==> c.fd in channels && c.fd !in kernel
      ensures c.status == New <==> c.fd !in channels && c.fd !in kernel
      ensures c.status != Added ==> c.IsNoneEvent()
    {
      assert Mirrors(c, c.events);
    }

    /** A channel of this loop wants nothing exactly when both its flags are off. */
    lemma IdleExactly(c: EventChannel)
      requires Valid() && c in members
      ensures c.poller == this && (c.IsNoneEvent() <==> !c.IsReading() && !c.IsWriting())
    {
      assert Mirrors(c, c.events);
      MaskLaws(c.events);
    }

    /** The kernel set holds exactly the descriptors of the added channels. */
    lemma KernelExactly()
      requires Valid()
      ensures kernel.Keys == set c | c in members && c.status == Added :: c.fd
    {
      forall fd | fd in kernel ensures exists c :: c in members && c.status == Added && c.fd == fd {
        var c :| c in members && c.fd == fd;
        assert Mirrors(c, c.events);
      }
    }

    method RemoveEventChannel(c: EventChannel)
      requires Valid() && c in members && c.status != New && c.IsNoneEvent()
      modifies c`status, this`channels, this`kernel, this`refused
      ensures Valid() && c.status == New
      ensures kernel == old(kernel) - {c.fd} && channels == old(channels) - {c.fd}
    {
      assert channels[c.fd] == c;
      channels := channels - {c.fd};
      if c.status == Added { UpdateEpollCtrl(Delete, c); }
      c.status := New;
    }

    /** `epoll_ctl`: adding a known descriptor or changing an unknown one is refused. */
    method UpdateEpollCtrl(op: Operation, c: EventChannel)
      modifies this`kernel, this`refused
      ensures refused == (old(refused) || (op.Add? == (c.fd in old(kernel))))
      ensures kernel ==
        if op.Add? == (c.fd in old(kernel)) then old(kernel)
        else if op.Delete? then old(kernel) - {c.fd}
        else old(kernel)[c.fd := c.events]
    {
      if op.Add? == (c.fd in kernel) {
        refused := true;
      } else if op.Delete? {
        kernel := kernel - {c.fd};
      } else {
        kernel := kernel[c.fd := c.events];
      }
    }
  }

  /** A descriptor can be used again after its channel has been removed from the loop. */
  method ReuseDescriptor(poller: EpollPoller, c: EventChannel) returns (d: EventChannel)
    requires poller.Valid() && c in poller.members && c.poller == poller && c.status != New && c.IsNoneEvent()
    modifies c, poller
    ensures poller.Valid() && fresh(d) && d in poller.members && d.fd == c.fd
    ensures d.status == Added && c.fd in poller.kernel && poller.kernel[c.fd] == d.events
  {
    c.RemoveFromLoop();
    d := new EventChannel(poller, c.fd);
    d.EnableReading();
    poller.StatusExactly(d);
  }

  /**
   A channel that wants nothing can be in the kernel set: the second of two calls of
   `DisableAll`, such as two runs of a close handler make, puts it back with an empty mask.
   */
  method DisableTwice(c: EventChannel)
    requires c in c.poller.members && c.poller.Valid() && c.status == Added
    modifies c, c.poller`channels, c.poller`kernel, c.poller`refused
    ensures c.poller.Valid() && c.IsNoneEvent() && c.fd in c.poller.kernel && c.poller.kernel[c.fd] == NoneEvent
  {
    c.DisableAll();
    c.DisableAll();
    c.poller.StatusExactly(c);
  }

  // ---------------------------------------------------------------------------
  // Runs
  // ---------------------------------------------------------------------------

  /** What the users of a loop ask for; a request that its asserts forbid is not made. */
  datatype Request =
    | Open(fd: int)
    | Reading(fd: int, on: bool)
    | Writing(fd: int, on: bool)
    | Nothing(fd: int)
    | Remove(fd: int)

  /** One channel in plain terms. */
  datatype Wish = Wish(reading: bool, writing: bool, status: Status)

  predicate Allowed(wishes: map<int, Wish>, q: Request) {
    match q
    case Open(fd) => fd in wishes ==> wishes[fd].status == New
    case Remove(fd) => fd in wishes && wishes[fd].status != New && !wishes[fd].reading && !wishes[fd].writing
    case _ => q.fd in wishes
  }

  function Wanting(wish: Wish, reading: bool, writing: bool): Wish {
    Wish(reading, writing, Updated(wish.status, !reading && !writing))
  }

  function Changed(wish: Wish, q: Request): Wish
    requires !q.Open?
  {
    match q
    case Reading(_, on) => Wanting(wish, on, wish.writing)
    case Writing(_, on) => Wanting(wish, wish.reading, on)
    case Nothing(_) => Wanting(wish, false, false)
    case Remove(_) => Wish(false, false, New)
  }

  function Granted(wishes: map<int, Wish>, q: Request): map<int, Wish> {
    if !Allowed(wishes, q) then wishes
    else
      wishes[q.fd := if q.Open? then Wish(false, false, New) else Changed(wishes[q.fd], q)]
  }

  function Wishes(requests: seq<Request>): map<int, Wish> {
    if requests == [] then map[] else Granted(Wishes(requests[..|requests| - 1]), requests[|requests| - 1])
  }

  /** The channels of the loop, by descriptor, are what the wishes say. */
  ghost predicate Fulfils(poller: EpollPoller, open: map<int, EventChannel>, wishes: map<int, Wish>)
    reads poller, poller.members
  {
    && poller.Valid() && open.Keys == wishes.Keys
    && (forall c | c in poller.members :: c.fd in open && open[c.fd] == c)
    && forall fd | fd in open :: open[fd] in poller.members && Fits(open[fd], fd, wishes[fd])
  }

  ghost predicate Fits(c: EventChannel, fd: int, wish: Wish)
    reads c
  {
    c.fd == fd && c.IsReading() == wish.reading && c.IsWriting() == wish.writing && c.status == wish.status
  }

  /** The channel of a descriptor; no other descriptor leads to it. */
  lemma TheChannel(poller: EpollPoller, open: map<int, EventChannel>, wishes: map<int, Wish>, fd: int)
    requires Fulfils(poller, open, wishes) && fd in open
    ensures open[fd] in poller.members && Fits(open[fd], fd, wishes[fd]) && open[fd].poller == poller
    ensures open[fd].IsNoneEvent() <==> !wishes[fd].reading && !wishes[fd].writing
    ensures forall other | other in open && other != fd :: open[other] != open[fd]
  {
    poller.IdleExactly(open[fd]);
    assert forall other | other in open :: Fits(open[other], other, wishes[other]);
  }

  /** Carry out a request on its channel. */
  method Apply(c: EventChannel, q: Request, ghost wish: Wish)
    requires c in c.poller.members && c.poller.Valid() && Fits(c, q.fd, wish)
    requires !q.Open? && (q.Remove? ==> c.status != New && c.IsNoneEvent() && !wish.reading && !wish.writing)
    modifies c, c.poller`channels, c.poller`kernel, c.poller`refused
    ensures c.poller.Valid() && Fits(c, q.fd, Changed(wish, q))
  {
    hide EpollPoller.Valid;
    match q {
      case Reading(_, on) => if on { c.EnableReading(); } else { c.DisableReading(); }
      case Writing(_, on) => if on { c.EnableWriting(); } else { c.DisableWriting(); }
      case Nothing(_) => c.DisableAll();
      case Remove(_) => c.RemoveFromLoop();
    }
    c.poller.IdleExactly(c);
  }

  /** A request that concerns an open channel. */
  method Change(poller: EpollPoller, open: map<int, EventChannel>, q: Request, ghost wishes: map<int, Wish>)
    requires Fulfils(poller, open, wishes) && q.fd in open && !q.Open? && Allowed(wishes, q)
    modifies open[q.fd], poller`channels, poller`kernel, poller`refused
    ensures Fulfils(poller, open, Granted(wishes, q))
  {
    var c := open[q.fd];
    TheChannel(poller, open, wishes, q.fd);
    hide EpollPoller.Valid, EpollPoller.Mirrors, EpollPoller.Members;
    Apply(c, q, wishes[q.fd]);
    hide Changed;
  }

  /** A new channel for a descriptor that is free. */
  method OpenOne(poller: EpollPoller, open: map<int, EventChannel>, fd: int, ghost wishes: map<int, Wish>)
    returns (c: EventChannel)
    requires Fulfils(poller, open, wishes) && Allowed(wishes, Open(fd))
    modifies poller`members
    ensures fresh(c) && Fulfils(poller, open[fd := c], Granted(wishes, Open(fd)))
    ensures forall d | d in poller.members :: d in old(poller.members) || d == c
  {
    assert poller.Unused(fd) by {
      forall c | c in poller.members && c.fd == fd ensures c.status == New { assert Fits(c, fd, wishes[fd]); }
    }
    c := new EventChannel(poller, fd);
    MaskLaws(NoneEvent);
    hide EpollPoller.Valid, EpollPoller.Mirrors, EpollPoller.Members;
  }

  /** One request; one that is not allowed is not made. */
  method Grant(poller: EpollPoller, open: map<int, EventChannel>, q: Request, ghost wishes: map<int, Wish>)
    returns (open': map<int, EventChannel>)
    requires Fulfils(poller, open, wishes)
    modifies poller, poller.members
    ensures Fulfils(poller, open', Granted(wishes, q))
    ensures forall d | d in poller.members :: d in old(poller.members) || fresh(d)
  {
    open' := open;
    if q.fd in open { TheChannel(poller, open, wishes, q.fd); }
    hide EpollPoller.Valid, EpollPoller.Mirrors, EpollPoller.Members;
    if q.Open? {
      if q.fd !in open || open[q.fd].status == New {
        var c := OpenOne(poller, open, q.fd, wishes);
        open' := open[q.fd := c];
      }
    } else if q.fd in open && (q.Remove? ==> open[q.fd].status != New && open[q.fd].IsNoneEvent()) {
      Change(poller, open, q, wishes);
    }
  }

  lemma WishesStep(requests: seq<Request>, i: nat)
    requires i < |requests|
    ensures Wishes(requests[..i + 1]) == Granted(Wishes(requests[..i]), requests[i])
  {
    assert requests[..i + 1][..i] == requests[..i];
  }

  /** What the kernel holds when the wishes are fulfilled. */
  lemma KernelFulfils(poller: EpollPoller, open: map<int, EventChannel>, wishes: map<int, Wish>, fd: int)
    requires Fulfils(poller, open, wishes)
    ensures fd in poller.kernel <==> fd in wishes && wishes[fd].status == Added
    ensures fd in poller.kernel ==>
      Reads(poller.kernel[fd]) == wishes[fd].reading && Writes(poller.kernel[fd]) == wishes[fd].writing
    ensures fd in wishes && fd !in poller.kernel ==> !wishes[fd].reading && !wishes[fd].writing
  {
    poller.KernelExactly();
    if fd in open {
      poller.StatusExactly(open[fd]);
      poller.IdleExactly(open[fd]);
    }
    hide EpollPoller.Valid, EpollPoller.Mirrors, EpollPoller.Members;
  }

  /**
   After every sequence of requests to a loop with any number of channels, the kernel holds
   exactly the descriptors of the added channels with exactly the flags that were asked for,
   no channel that wants something is missing, and no kernel call was refused.
   */
  method Replay(requests: seq<Request>) returns (kernel: map<int, Mask>, refused: bool)
    ensures !refused
    ensures var wishes := Wishes(requests);
      && (forall fd :: fd in kernel <==> fd in wishes && wishes[fd].status == Added)
      && (forall fd | fd in kernel ::
            Reads(kernel[fd]) == wishes[fd].reading && Writes(kernel[fd]) == wishes[fd].writing)
      && (forall fd | fd in wishes && (wishes[fd].reading || wishes[fd].writing) :: fd in kernel)
  {
    var poller := new EpollPoller();
    var open: map<int, EventChannel> := map[];
    for i := 0 to |requests|
      invariant fresh(poller) && (forall c | c in poller.members :: fresh(c))
      invariant Fulfils(poller, open, Wishes(requests[..i]))
    {
      WishesStep(requests, i);
      open := Grant(poller, open, requests[i], Wishes(requests[..i]));
    }
    assert requests[..|requests|] == requests;
    kernel, refused := poller.kernel, poller.refused;
    forall fd
      ensures fd in kernel <==> fd in Wishes(requests) && Wishes(requests)[fd].status == Added
      ensures fd in kernel ==>
        && Reads(kernel[fd]) == Wishes(requests)[fd].reading && Writes(kernel[fd]) == Wishes(requests)[fd].writing
      ensures fd in Wishes(requests) && fd !in kernel ==>
        !Wishes(requests)[fd].reading && !Wishes(requests)[fd].writing
    {
      KernelFulfils(poller, open, Wishes(requests), fd);
    }
  }
}
