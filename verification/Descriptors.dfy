/**
 Slots of the global file table and descriptors of a process (get_free_slot_in_global and
 pcb_fd_install in fs/file.c): the first three of both are standard input, output and error.
 */
module Descriptors {

  /** The lowest free slot from 3 on, or the number of slots. */
  ghost predicate LowestFree(used: seq<bool>, g: nat) {
    3 <= g <= |used| && (g < |used| ==> !used[g]) && forall h :: 3 <= h < g ==> used[h]
  }

  /** get_free_slot_in_global, with the number of slots for -1. */
  method FreeSlot(used: seq<bool>) returns (g: nat)
    requires |used| == 32
    ensures LowestFree(used, g)
  {
    g := 3;
    while g < |used| && used[g]
      invariant 3 <= g <= |used| && forall h :: 3 <= h < g ==> used[h]
    {
      g := g + 1;
    }
  }

  /** pcb_fd_install: slot `g` goes to the lowest free descriptor from 3 on; 8 stands for -1. */
  method Install(fds: seq<int>, g: int) returns (fds1: seq<int>, f: nat)
    requires |fds| == 8
    ensures 3 <= f <= 8 && (forall h :: 3 <= h < f ==> fds[h] != -1)
    ensures f < 8 ==> fds[f] == -1 && fds1 == fds[f := g]
    ensures f == 8 ==> fds1 == fds
  {
    f, fds1 := 3, fds;
    while f < 8 && fds[f] != -1
      invariant 3 <= f <= 8 && forall h :: 3 <= h < f ==> fds[h] != -1
    {
      f := f + 1;
    }
    if f < 8 {
      fds1 := fds[f := g];
    }
  }
}
