// The set of watched descriptors behind select, and its upper end.
module SelectAio {

  datatype Flag = Reading | Writing | Both

  // The largest member.
  ghost predicate IsMax(s: set<nat>, m: nat) {
    m in s && forall x | x in s :: x <= m
  }

  // The members of s below n in ascending order.
  function Ascending(s: set<nat>, n: nat): seq<nat> {
    if n == 0 then [] else Ascending(s, n - 1) + if n - 1 in s then [n - 1] else []
  }

  lemma {:induction false} AscendingIs(s: set<nat>, n: nat)
    ensures forall x :: x in Ascending(s, n) <==> x in s && x < n
    ensures forall i, j | 0 <= i < j < |Ascending(s, n)| :: Ascending(s, n)[i] < Ascending(s, n)[j]
  {
    if n > 0 {
      AscendingIs(s, n - 1);
      var front := Ascending(s, n - 1);
      assert forall i | 0 <= i < |front| :: front[i] in front;
    }
  }

  class SelectAio {
    var rfds: set<nat>
    var wfds: set<nat>
    var highfds: nat
    const pipe: nat

    // The reading end of the pipe is always watched.
    ghost predicate Valid()
      reads this
    {
      pipe in rfds && IsMax(rfds + wfds, highfds)
    }

    constructor (pipe: nat)
      ensures Valid() && this.pipe == pipe && rfds == {pipe} && wfds == {}
    {
      this.pipe := pipe;
      rfds, wfds, highfds := {pipe}, {}, pipe;
    }

    method WatchFd(fd: nat, flag: Flag)
      requires Valid()
      modifies this
      ensures Valid()
      ensures rfds == old(rfds) + if flag.Writing? then {} else {fd}
      ensures wfds == old(wfds) + if flag.Reading? then {} else {fd}
    {
      if highfds <= fd {
        highfds := fd;
      }
      match flag
      case Reading => rfds := rfds + {fd};
      case Writing => wfds := wfds + {fd};
      case Both => rfds, wfds := rfds + {fd}, wfds + {fd};
    }

    method IsWatched(fd: nat, flag: Flag) returns (r: bool)
      ensures r <==> (!flag.Writing? ==> fd in rfds) && (!flag.Reading? ==> fd in wfds)
    {
      match flag
      case Reading => r := fd in rfds;
      case Writing => r := fd in wfds;
      case Both => r := fd in rfds && fd in wfds;
    }

    // Stops watching; tells whether nothing of fd is watched any more.
    method UnwatchFd(fd: nat, flag: Flag) returns (gone: bool)
      requires Valid() && fd != pipe
      modifies this
      ensures Valid()
      ensures rfds == old(rfds) - if flag.Writing? then {} else {fd}
      ensures wfds == old(wfds) - if flag.Reading? then {} else {fd}
      ensures gone <==> fd !in rfds + wfds
    {
      match flag {
        case Reading => rfds := rfds - {fd};
        case Writing => wfds := wfds - {fd};
        case Both => rfds, wfds := rfds - {fd}, wfds - {fd};
      }
      if fd !in rfds && fd !in wfds && fd == highfds {
        var newh := Rescan();
        highfds := newh;
      }
      gone := fd !in rfds && fd !in wfds;
    }

    // The loop over all descriptors up to the old maximum.
    method Rescan() returns (newh: nat)
      requires pipe in rfds && forall x | x in rfds + wfds :: x <= highfds
      ensures IsMax(rfds + wfds, newh)
    {
      newh := pipe;
      var i := 0;
      while i <= highfds
        invariant 0 <= i <= highfds + 1
        invariant newh in rfds + wfds
        invariant forall x | x in rfds + wfds && x < i :: x <= newh
        invariant newh == pipe || newh < i
      {
        if i in rfds {
          newh := i;
        } else if i in wfds {
          newh := i;
        }
        i := i + 1;
      }
    }

    // What wait_ready reports when select finds the descriptors in trfds ready to
    // read and those in twfds ready to write.
    method Report(trfds: set<nat>, twfds: set<nat>) returns (readable: seq<nat>, writable: seq<nat>)
      requires Valid() && trfds <= rfds && twfds <= wfds && pipe !in twfds
      ensures forall x :: x in readable <==> x in trfds && x != pipe
      ensures forall x :: x in writable <==> x in twfds
      ensures forall i, j | 0 <= i < j < |readable| :: readable[i] < readable[j]
      ensures forall i, j | 0 <= i < j < |writable| :: writable[i] < writable[j]
    {
      readable, writable := [], [];
      var fd := 0;
      while fd <= highfds
        invariant 0 <= fd <= highfds + 1
        invariant readable == Ascending(trfds - {pipe}, fd) && writable == Ascending(twfds, fd)
      {
        if fd == pipe && fd in trfds {
        } else {
          if fd in twfds {
            writable := writable + [fd];
          }
          if fd in trfds {
            readable := readable + [fd];
          }
        }
        fd := fd + 1;
      }
      AscendingIs(trfds - {pipe}, highfds + 1);
      AscendingIs(twfds, highfds + 1);
      assert forall x | x in trfds || x in twfds :: x in rfds + wfds;
    }
  }
}
