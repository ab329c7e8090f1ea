/**
 * Argument lists cut into frames. A continue frame's first argument carries on the argument
 * that the frame before it left open, so putting frames back together is `Join`.
 */
module Args {
  import opened Bytes

  type Args = seq<Bytes>

  const KEY_LENGTH := 2  // bytes in front of each argument

  // ---------- joining ----------

  function Join(a: Args, b: Args): Args {
    if a == [] then b
    else if b == [] then a
    else a[..|a| - 1] + [a[|a| - 1] + b[0]] + b[1..]
  }

  lemma {:induction false} JoinIsAssociative(a: Args, b: Args, c: Args)
    ensures Join(Join(a, b), c) == Join(a, Join(b, c))
  {
    if a != [] && b != [] && c != [] {
      if |b| == 1 { JoinThroughOne(a, b[0], c); } else { JoinAround(a, b, c); }
    }
  }

  lemma {:induction false} JoinThroughOne(a: Args, b: Bytes, c: Args)
    requires a != [] && c != []
    ensures Join(Join(a, [b]), c) == Join(a, Join([b], c))
  {
    var init, last := a[..|a| - 1], a[|a| - 1];
    assert Join(a, [b]) == init + [last + b];
    assert (init + [last + b])[..|init|] == init;
    assert Join([b], c) == [b + c[0]] + c[1..] && ([b + c[0]] + c[1..])[1..] == c[1..];
    assert last + b + c[0] == last + (b + c[0]);
    assert Join(Join(a, [b]), c) == init + [last + b + c[0]] + c[1..];
  }

  lemma {:induction false} JoinAround(a: Args, b: Args, c: Args)
    requires a != [] && |b| > 1 && c != []
    ensures Join(Join(a, b), c) == Join(a, Join(b, c))
  {
    var front, back := a[..|a| - 1] + [a[|a| - 1] + b[0]], [b[|b| - 1] + c[0]] + c[1..];
    assert Join(a, b) == front + b[1..];
    assert (front + b[1..])[..|front + b[1..]| - 1] == front + b[1..|b| - 1];
    assert Join(b, c) == b[..|b| - 1] + back;
    assert (b[..|b| - 1] + back)[1..] == b[1..|b| - 1] + back;
    assert front + b[1..|b| - 1] + back == front + (b[1..|b| - 1] + back);
  }

  /** Joining loses no byte: the concatenated contents are the same however they were cut. */
  lemma {:induction false} JoinKeepsBytes(a: Args, b: Args)
    ensures Concat(Join(a, b)) == Concat(a) + Concat(b)
  {
    if a != [] && b != [] {
      var init, last, first, rest := a[..|a| - 1], a[|a| - 1], b[0], b[1..];
      ConcatAppend(init + [last + first], rest);
      ConcatLast(init, last + first);
      ConcatFirst(b);
      SameBytes(Concat(init), last, first, Concat(rest));
    }
  }

  lemma {:induction false} SameBytes(init: Bytes, last: Bytes, first: Bytes, rest: Bytes)
    ensures init + (last + first) + rest == init + last + (first + rest)
  {
  }

  // ---------- sizes ----------

  /** Bytes an argument list takes on the wire. */
  function WireLength(args: Args): nat {
    if args == [] then 0 else KEY_LENGTH + |args[0]| + WireLength(args[1..])
  }

  // ---------- cutting ----------

  /** What one pass of the splitter leaves: kept arguments, shifted arguments, unused space. */
  datatype Cut = Cut(kept: Args, rest: Args, left: int)

  /**
   * The splitter's outcome. Its three branches: an argument that does not fit is cut and its
   * remainder shifted; one that fits is kept, and if no more than a key's worth of space is
   * left an empty continuation is queued; without space for a key everything is shifted.
   */
  function Split(args: Args, space: int): Cut {
    if args == [] then Cut([], [], space)
    else if space < KEY_LENGTH then Cut([], args, space)
    else
      var arg, room := args[0], space - KEY_LENGTH;
      if room < |arg| then
        Cut([arg[..room]], [arg[room..]] + args[1..], 0)
      else
        var later := Split(args[1..], room - |arg|);
        Cut([arg] + later.kept,
            (if room - |arg| <= KEY_LENGTH then [[]] else []) + later.rest,
            later.left)
  }

  /** Some kept argument other than the last leaves exactly a key's worth of space. */
  predicate LeavesKeyAfter(args: Args, space: int, i: nat)
  {
    i + 1 < |args| && WireLength(args[..i + 1]) + KEY_LENGTH == space
  }

  predicate Residue(args: Args, space: int) {
    exists i | 0 <= i < |args| :: LeavesKeyAfter(args, space, i)
  }

  lemma {:induction false} WireLengthOfPrefix(args: Args, n: nat)
    requires 0 < n <= |args|
    ensures WireLength(args[..n]) == KEY_LENGTH + |args[0]| + WireLength(args[1..][..n - 1])
  {
    assert args[..n][1..] == args[1..][..n - 1];
  }

  lemma {:induction false} ResidueStep(args: Args, space: int)
    requires args != []
    ensures Residue(args, space) <==>
      (|args| > 1 && space - KEY_LENGTH - |args[0]| == KEY_LENGTH) || Residue(args[1..], space - KEY_LENGTH - |args[0]|)
  {
    var later := space - KEY_LENGTH - |args[0]|;
    forall i | 0 <= i < |args|
      ensures LeavesKeyAfter(args, space, i) <==>
        if i == 0 then |args| > 1 && later == KEY_LENGTH else LeavesKeyAfter(args[1..], later, i - 1)
    {
      WireLengthOfPrefix(args, i + 1);
    }
    if Residue(args, space) {
      var i :| 0 <= i < |args| && LeavesKeyAfter(args, space, i);
      assert i == 0 || LeavesKeyAfter(args[1..], later, i - 1);
    }
    if Residue(args[1..], later) {
      var i :| 0 <= i < |args[1..]| && LeavesKeyAfter(args[1..], later, i);
      assert LeavesKeyAfter(args, space, i + 1);
    }
    if |args| > 1 && later == KEY_LENGTH {
      assert LeavesKeyAfter(args, space, 0);
    }
  }

  lemma {:induction false} NoResidueWithoutSpace(args: Args, space: int)
    requires space <= KEY_LENGTH
    ensures !Residue(args, space)
  {
    forall i | 0 <= i < |args| ensures !LeavesKeyAfter(args, space, i) {
      WireLengthOfPrefix(args, i + 1);
    }
  }

  /** `args` with an empty argument inserted somewhere. */
  ghost predicate OneEmptyInserted(args: Args, longer: Args) {
    exists i | 0 <= i <= |args| :: longer == args[..i] + [[]] + args[i..]
  }

  /** An argument that fits is kept, and a mark is shifted if no more than a key's worth of space is left. */
  lemma {:induction false} SplitKeepsFirst(args: Args, space: int)
    requires args != [] && KEY_LENGTH <= space && |args[0]| <= space - KEY_LENGTH
    ensures var left := space - KEY_LENGTH - |args[0]|;
            var later := Split(args[1..], left);
            && Split(args, space).kept == [args[0]] + later.kept
            && Split(args, space).rest == (if left <= KEY_LENGTH then [[]] else []) + later.rest
  {
  }

  lemma {:induction false} SplitCutsFirst(args: Args, space: int)
    requires args != [] && KEY_LENGTH <= space && |args[0]| > space - KEY_LENGTH
    ensures Join(Split(args, space).kept, Split(args, space).rest) == args
  {
    var arg, room := args[0], space - KEY_LENGTH;
    assert arg[..room] + arg[room..] == arg;
    assert args == [arg] + args[1..];
  }

  /** Exactly a key's worth of space is left: the next argument is shifted whole behind an empty piece of itself. */
  lemma {:induction false} SplitOfKey(args: Args)
    requires args != []
    ensures Split(args, KEY_LENGTH).kept == [[]] && Split(args, KEY_LENGTH).rest == args
  {
    var next := args[0];
    assert args == [next] + args[1..];
    if |next| == 0 {
      assert Split(args[1..], 0).kept == [] && Split(args[1..], 0).rest == args[1..];
    } else {
      assert next[0..] == next && next[..0] == [];
    }
  }

  /** The first argument is the last one kept, or the one before an empty last one. */
  lemma {:induction false} SplitAtBoundary(args: Args, space: int)
    requires args != [] && KEY_LENGTH <= space && 0 <= space - KEY_LENGTH - |args[0]| <= KEY_LENGTH
    ensures Join(Split(args, space).kept, Split(args, space).rest)
         == (if |args| > 1 && space - KEY_LENGTH - |args[0]| == KEY_LENGTH then [args[0], []] + args[1..] else args)
  {
    var arg, left := args[0], space - KEY_LENGTH - |args[0]|;
    SplitKeepsFirst(args, space);
    assert args == [arg] + args[1..];
    if |args| > 1 && left == KEY_LENGTH {
      SplitOfKey(args[1..]);
      assert [arg] + [[]] == [arg, []];
      JoinMark([arg, []], args[1..]);
    } else {
      assert Split(args[1..], left) == Cut([], args[1..], left);
      assert [arg] + [] == [arg];
      JoinMark([arg], args[1..]);
    }
  }

  lemma {:induction false} JoinMark(kept: Args, rest: Args)
    requires kept != []
    ensures Join(kept, [[]] + rest) == kept + rest
  {
    var last := kept[|kept| - 1];
    assert ([[]] + rest)[1..] == rest && last + [] == last;
    assert kept[..|kept| - 1] + [last] == kept;
  }

  lemma {:induction false} JoinAfterFirst(first: Bytes, a: Args, b: Args)
    requires a != [] || b == []
    ensures Join([first] + a, b) == [first] + Join(a, b)
  {
    if a != [] && b != [] {
      assert ([first] + a)[..|a|] == [first] + a[..|a| - 1];
    }
  }

  /** The first argument is kept whole and the cut falls further on. */
  lemma {:induction false} SplitPastFirst(args: Args, space: int)
    requires args != [] && space - KEY_LENGTH - |args[0]| > KEY_LENGTH
    ensures var cut, later := Split(args, space), Split(args[1..], space - KEY_LENGTH - |args[0]|);
            Join(cut.kept, cut.rest) == [args[0]] + Join(later.kept, later.rest)
  {
    SplitKeepsFirst(args, space);
    var later := Split(args[1..], space - KEY_LENGTH - |args[0]|);
    assert [] + later.rest == later.rest;
    JoinAfterFirst(args[0], later.kept, later.rest);
  }

  /** Putting the same first argument in front of two lists does not change how they compare. */
  lemma {:induction false} SameAfterFirst(args: Args, tail: Args)
    requires args != []
    ensures [args[0]] + tail == args <==> tail == args[1..]
    ensures OneEmptyInserted(args[1..], tail) ==> OneEmptyInserted(args, [args[0]] + tail)
  {
    assert args == [args[0]] + args[1..];
    assert ([args[0]] + tail)[1..] == tail;
    if OneEmptyInserted(args[1..], tail) {
      var i :| 0 <= i <= |args[1..]| && tail == args[1..][..i] + [[]] + args[1..][i..];
      assert args[..i + 1] == [args[0]] + args[1..][..i];
      assert args[i + 1..] == args[1..][i..];
      assert [args[0]] + tail == args[..i + 1] + [[]] + args[i + 1..];
    }
  }

  lemma {:induction false} EmptyAfterFirst(args: Args)
    requires |args| > 1
    ensures [args[0], []] + args[1..] != args && OneEmptyInserted(args, [args[0], []] + args[1..])
  {
    assert |[args[0], []] + args[1..]| == |args| + 1;
    assert [args[0], []] + args[1..] == args[..1] + [[]] + args[1..];
  }

  /** Without a residue the pieces join to the arguments; with one, an empty argument has been inserted. */
  ghost predicate JoinsBack(args: Args, space: int, joined: Args) {
    (!Residue(args, space) <==> joined == args) && (Residue(args, space) ==> OneEmptyInserted(args, joined))
  }

  lemma {:induction false} JoinsBackAtBoundary(args: Args, space: int)
    requires args != [] && KEY_LENGTH <= space && space - KEY_LENGTH - |args[0]| <= KEY_LENGTH
    ensures JoinsBack(args, space, Join(Split(args, space).kept, Split(args, space).rest))
  {
    var left := space - KEY_LENGTH - |args[0]|;
    ResidueStep(args, space);
    NoResidueWithoutSpace(args[1..], left);
    if left < 0 { SplitCutsFirst(args, space); } else { SplitAtBoundary(args, space); }
    if |args| > 1 { EmptyAfterFirst(args); }
  }

  lemma {:induction false} JoinsBackPastFirst(args: Args, space: int, joined: Args)
    requires args != [] && space - KEY_LENGTH - |args[0]| > KEY_LENGTH
    requires JoinsBack(args[1..], space - KEY_LENGTH - |args[0]|, joined)
    ensures JoinsBack(args, space, [args[0]] + joined)
  {
    ResidueStep(args, space);
    SameAfterFirst(args, joined);
  }

  /**
   * One cut joins back to the arguments it was made from exactly when no kept argument but
   * the last leaves two bytes over; otherwise one empty argument has been inserted.
   */
  lemma {:induction false} SplitJoins(args: Args, space: int)
    ensures JoinsBack(args, space, Join(Split(args, space).kept, Split(args, space).rest))
  {
    if args == [] {
    } else if space < KEY_LENGTH {
      NoResidueWithoutSpace(args, space);
    } else if space - KEY_LENGTH - |args[0]| <= KEY_LENGTH {
      JoinsBackAtBoundary(args, space);
    } else {
      var later := Split(args[1..], space - KEY_LENGTH - |args[0]|);
      SplitJoins(args[1..], space - KEY_LENGTH - |args[0]|);
      SplitPastFirst(args, space);
      JoinsBackPastFirst(args, space, Join(later.kept, later.rest));
    }
  }

  // ---------- how full a frame gets ----------

  /**
   * The kept arguments and the unused space account for the budget, and if anything is
   * shifted to the next frame no more than a key's worth of space is wasted.
   */
  lemma {:induction false} SplitFillsFrame(args: Args, space: nat)
    ensures var cut := Split(args, space);
            && WireLength(cut.kept) + cut.left == space && 0 <= cut.left
            && (cut.rest != [] ==> cut.left <= KEY_LENGTH)
  {
    if args != [] && space >= KEY_LENGTH && space - KEY_LENGTH >= |args[0]| {
      var room := space - KEY_LENGTH - |args[0]|;
      SplitFillsFrame(args[1..], room);
      assert Split(args, space).kept[1..] == Split(args[1..], room).kept;
    }
  }

  /** Nothing is shifted to the next frame exactly if there is nothing, or more than a key's worth of space is left. */
  lemma {:induction false} SplitShiftsNothing(args: Args, space: int)
    ensures Split(args, space).rest == [] <==> args == [] || WireLength(args) + KEY_LENGTH < space
  {
    if args != [] && KEY_LENGTH <= space && |args[0]| <= space - KEY_LENGTH {
      SplitShiftsNothing(args[1..], space - KEY_LENGTH - |args[0]|);
    }
  }

  /** Cutting adds at most two keys to what is left to send. */
  lemma {:induction false} SplitShrinks(args: Args, space: int)
    ensures var cut := Split(args, space);
            WireLength(cut.kept) + WireLength(cut.rest) <= WireLength(args) + 2 * KEY_LENGTH
    ensures space <= KEY_LENGTH ==>
            WireLength(Split(args, space).kept) + WireLength(Split(args, space).rest) <= WireLength(args) + KEY_LENGTH
  {
    if args != [] && space >= KEY_LENGTH {
      var arg, room := args[0], space - KEY_LENGTH;
      var cut := Split(args, space);
      if room < |arg| {
        assert cut.kept[1..] == [] && cut.rest[1..] == args[1..];
      } else {
        SplitShrinks(args[1..], room - |arg|);
        var later := Split(args[1..], room - |arg|);
        assert cut.kept[1..] == later.kept;
        if room - |arg| <= KEY_LENGTH {
          assert cut.rest[1..] == later.rest;
        } else {
          assert cut.rest == later.rest;
        }
      }
    }
  }
}
