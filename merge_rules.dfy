/** The per-file decisions of merge (Commands.java:616-675) and the text
    writeConflict puts in a conflicted file (Commands.java:794-819). Each
    file is judged on three versions: its blob fingerprint at the split
    point, in the current (HEAD) commit and in the given branch's commit,
    None where that snapshot does not track the file. */
module MergeRules {
  import opened Wrappers
  import opened Blobs

  type Version = Option<BlobId>

  /** What merge does to one file. */
  datatype Action =
    | Keep          // nothing: the current version stays
    | TakeGiven     // checkout the given version and add it
    | StageRemoval  // rm the file
    | Conflict      // writeConflict

  /** The version a snapshot holds for a file. */
  function Get(m: map<string, BlobId>, f: string): Version
  {
    if f in m then Some(m[f]) else None
  }

  /** The loop over the current snapshot (Commands.java:616-638): files the
      given side changed while the current side kept the split version are
      taken from the given side; files both sides changed differently, or
      the current side changed and the given side deleted, conflict. */
  function CurrentLoop(s: Version, c: Version, g: Version): (a: Action)
    ensures a != Keep ==> c.Some? && a != StageRemoval
    ensures a == TakeGiven ==> s == c && g.Some? && g != c
    ensures a == Conflict ==> s.Some? && s != c && c != g
  {
    if c.None? then Keep
    else if s.Some? && g.Some? then
      if s != g && s == c then TakeGiven
      else if s != g && s != c && c != g then Conflict
      else Keep
    else if g.None? && s.Some? && s != c then Conflict
    else Keep
  }

  /** The loop over the given snapshot (Commands.java:639-656): a file new on
      the given side only is taken; a file both sides added differently, or
      the current side deleted and the given side changed, conflicts. The
      three tests of the source exclude each other, so they are a chain. */
  function GivenLoop(s: Version, c: Version, g: Version): (a: Action)
    ensures a != Keep ==> g.Some? && a != StageRemoval && c != g
    ensures a == TakeGiven ==> s.None? && c.None?
    ensures a == Conflict ==> s != g && s != c
  {
    if g.None? then Keep
    else if s.None? && c.None? then TakeGiven
    else if s.None? && c.Some? && c != g then Conflict
    else if c.None? && s.Some? && s != g then Conflict
    else Keep
  }

  /** mergeremove (Commands.java:665-675): a split-point file the current
      side kept unchanged and the given side deleted is removed. */
  function SplitLoop(s: Version, c: Version, g: Version): (a: Action)
    ensures a != Keep <==> s.Some? && s == c && g.None?
    ensures a == Keep || a == StageRemoval
  {
    if s.Some? && c.Some? && s == c && g.None? then StageRemoval else Keep
  }

  /** At most one of the three loops acts on any one file. */
  lemma LoopsExclusive(s: Version, c: Version, g: Version)
    ensures CurrentLoop(s, c, g) != Keep ==> GivenLoop(s, c, g) == Keep && SplitLoop(s, c, g) == Keep
    ensures GivenLoop(s, c, g) != Keep ==> SplitLoop(s, c, g) == Keep
  {
  }

  /** The action a loop picks for a file is the file's merge action. */
  lemma LoopPicksResolve(s: Version, c: Version, g: Version)
    ensures CurrentLoop(s, c, g) != Keep ==> Resolve(s, c, g) == CurrentLoop(s, c, g)
    ensures GivenLoop(s, c, g) != Keep ==> Resolve(s, c, g) == GivenLoop(s, c, g)
    ensures SplitLoop(s, c, g) != Keep ==> Resolve(s, c, g) == SplitLoop(s, c, g)
  {
    LoopsExclusive(s, c, g);
  }

  /** What the three loops together do to one file: the action of the loop
      that acts on it, Keep when none does. The outcome is the three-way
      merge rule: keep the current version when the given side did not
      change the file or both sides agree; take the given side's version
      (or its deletion) when only the given side changed it; conflict when
      the two sides changed it in different ways. */
  function Resolve(s: Version, c: Version, g: Version): (a: Action)
    ensures g == s || c == g ==> a == Keep
    ensures c == s && g != s ==> a == (if g.Some? then TakeGiven else StageRemoval)
    ensures c != s && g != s && c != g ==> a == Conflict
  {
    var current := CurrentLoop(s, c, g);
    var given := GivenLoop(s, c, g);
    if current != Keep then current
    else if given != Keep then given
    else SplitLoop(s, c, g)
  }

  /** The three-way table row by row: split, current and given presence,
      then which versions agree. Rows the table does not list keep the
      current version. */
  function ThreeWay(s: Version, c: Version, g: Version): Action
  {
    match (s, c, g)
    case (Some(sv), Some(cv), Some(gv)) =>
      if cv == sv && gv != sv then TakeGiven
      else if cv != sv && gv != sv && cv != gv then Conflict
      else Keep
    case (Some(sv), Some(cv), None) =>
      if cv != sv then Conflict else StageRemoval
    case (Some(sv), None, Some(gv)) =>
      if gv != sv then Conflict else Keep
    case (None, None, Some(_)) => TakeGiven
    case (None, Some(cv), Some(gv)) =>
      if cv == gv then Keep else Conflict
    case _ => Keep
  }

  /** The source's three loops implement the three-way table exactly. */
  lemma ResolveIsThreeWay(s: Version, c: Version, g: Version)
    ensures Resolve(s, c, g) == ThreeWay(s, c, g)
  {
  }

  /** Facts merge needs about each action: a taken version is a real change
      for the current side, so add stages it; a removal concerns a file
      the current side tracks and the given side does not. */
  lemma ActionFacts(s: Version, c: Version, g: Version)
    ensures Resolve(s, c, g) == TakeGiven ==> g.Some? && c != g
    ensures Resolve(s, c, g) == StageRemoval ==> c.Some? && g.None? && CurrentLoop(s, c, g) == Keep
    ensures Resolve(s, c, g) == Conflict ==> c != g
  {
  }

  const HeadMarker := "<<<<<<< HEAD\n"
  const Separator := "=======\n"
  const EndMarker := ">>>>>>>\n"

  /** The content writeConflict writes (Commands.java:813-814). */
  function ConflictText(head: string, given: string): (r: string)
    ensures |r| == |head| + |given| + 29
  {
    HeadMarker + head + Separator + given + EndMarker
  }

  /** The conflict text is the head marker, the current side, the
      separator, the given side and the end marker, in that order, so both
      sides can be read back from it given the length of the current side. */
  lemma ConflictTextParts(head: string, given: string)
    ensures var r := ConflictText(head, given);
      && |r| == |head| + |given| + 29
      && r[..13] == HeadMarker && r[13..13 + |head|] == head
      && r[13 + |head|..21 + |head|] == Separator
      && r[21 + |head|..|r| - 8] == given && r[|r| - 8..] == EndMarker
  {
  }

  /** Conflict texts with current sides of the same length are equal only
      when both sides are equal. */
  lemma ConflictTextInjective(h1: string, g1: string, h2: string, g2: string)
    requires |h1| == |h2|
    requires ConflictText(h1, g1) == ConflictText(h2, g2)
    ensures h1 == h2 && g1 == g2
  {
    var r := ConflictText(h1, g1);
    ConflictTextParts(h1, g1);
    ConflictTextParts(h2, g2);
    assert h1 == r[13..13 + |h1|];
    assert g1 == r[21 + |h1|..|r| - 8];
  }
}
