/**
First-writer-wins key files.  Both the KEK file and the connector hub's DEK
files are created the same way: write a private temporary file, then hard-link
it to the final name, which fails when the name exists.  Any number of actors
race; each may die at any point, leaving a partial temporary file behind.
*/
module KeyFile {
  import opened Common
  import KeyProtocol

  type Bytes = seq<bv8>
  type Actor = nat
  type Inode = nat

  datatype Stage =
    | Check                   // read the final name
    | Make                    // it did not exist: create a temporary file
    | Writing(ino: Inode)
    | Written(ino: Inode)     // closed; about to link
    | Lost                    // the link found an existing file: read the winner's
    | Got(key: Bytes)
    | Failed

  datatype Attempt = Attempt(content: Bytes, stage: Stage)

  /** Files by inode, and the inode the final name points to.  Every key has `size` bytes (32 for the KEK). */
  datatype Disk = Disk(size: nat, target: Option<Inode>, data: map<Inode, Bytes>, actors: map<Actor, Attempt>)

  datatype Step =
    | Join(a: Actor, content: Bytes)
    | Read(a: Actor)
    | Create(a: Actor, ino: Inode)
    | Append(a: Actor, n: nat)
    | Close(a: Actor)
    | Link(a: Actor)
    | Die(a: Actor)
    | Remove(ino: Inode)      // the deferred removal of a temporary name

  function Initial(size: nat): Disk { Disk(size, None, map[], map[]) }

  predicate Holds(stage: Stage, ino: Inode)
  {
    (stage.Writing? || stage.Written?) && stage.ino == ino
  }

  predicate Enabled(d: Disk, step: Step)
  {
    match step
    case Join(a, content) => a !in d.actors && |content| == d.size
    case Read(a) => a in d.actors && (d.actors[a].stage == Check || d.actors[a].stage == Lost)
                    && (d.target.Some? ==> d.target.value in d.data)
    case Create(a, ino) => a in d.actors && d.actors[a].stage == Make && ino !in d.data
    case Append(a, n) => a in d.actors && d.actors[a].stage.Writing? && d.actors[a].stage.ino in d.data
                         && |d.data[d.actors[a].stage.ino]| + n <= |d.actors[a].content|
    case Close(a) => a in d.actors && d.actors[a].stage.Writing? && d.actors[a].stage.ino in d.data
                     && |d.data[d.actors[a].stage.ino]| == |d.actors[a].content|
    case Link(a) => a in d.actors && d.actors[a].stage.Written?
    case Die(a) => a in d.actors && !d.actors[a].stage.Got?
    case Remove(ino) => ino in d.data && d.target != Some(ino) && forall a <- d.actors :: !Holds(d.actors[a].stage, ino)
  }

  function Move(d: Disk, a: Actor, stage: Stage): Disk
    requires a in d.actors
  {
    d.(actors := d.actors[a := d.actors[a].(stage := stage)])
  }

  function Do(d: Disk, step: Step): Disk
    requires Enabled(d, step)
  {
    match step
    case Join(a, content) => d.(actors := d.actors[a := Attempt(content, Check)])
    case Read(a) =>
      Move(d, a,
        match d.target
        case Some(ino) => if |d.data[ino]| == d.size then Got(d.data[ino]) else Failed
        case None => if d.actors[a].stage == Check then Make else Failed)
    case Create(a, ino) => Move(d, a, Writing(ino)).(data := d.data[ino := []])
    case Append(a, n) =>
      var ino := d.actors[a].stage.ino;
      d.(data := d.data[ino := d.data[ino] + d.actors[a].content[|d.data[ino]|..|d.data[ino]| + n]])
    case Close(a) => Move(d, a, Written(d.actors[a].stage.ino))
    case Link(a) =>
      if d.target.Some? then Move(d, a, Lost)
      else Move(d, a, Got(d.actors[a].content)).(target := Some(d.actors[a].stage.ino))
    case Die(a) => Move(d, a, Failed)
    case Remove(ino) => d.(data := d.data - {ino})
  }

  predicate Ok(d: Disk, steps: seq<Step>)
    decreases |steps|
  {
    steps == [] || (Enabled(d, steps[0]) && Ok(Do(d, steps[0]), steps[1..]))
  }

  function Final(d: Disk, steps: seq<Step>): Disk
    requires Ok(d, steps)
    decreases |steps|
  {
    if steps == [] then d else Final(Do(d, steps[0]), steps[1..])
  }

  /** What a reader of the final name sees. */
  function Visible(d: Disk): Option<Bytes>
  {
    if d.target.Some? && d.target.value in d.data then Some(d.data[d.target.value]) else None
  }

  ghost predicate AttemptOk(d: Disk, a: Actor)
    requires a in d.actors
  {
    var t := d.actors[a];
    && |t.content| == d.size
    && match t.stage
       case Writing(ino) => ino in d.data && d.target != Some(ino) && d.data[ino] <= t.content
       case Written(ino) => ino in d.data && d.target != Some(ino) && d.data[ino] == t.content
       case Lost => d.target.Some?
       case Got(key) => Visible(d) == Some(key)
       case _ => true
  }

  ghost predicate Private(d: Disk)
  {
    forall a, a', ino :: a in d.actors && a' in d.actors && a != a' && Holds(d.actors[a].stage, ino) ==>
      !Holds(d.actors[a'].stage, ino)
  }

  /** Temporary files belong to one actor each, and the visible file is whole and some actor's own. */
  ghost predicate Inv(d: Disk)
  {
    && (forall a <- d.actors :: AttemptOk(d, a))
    && Private(d)
    && (d.target.Some? ==> d.target.value in d.data && exists a :: a in d.actors && d.actors[a].content == d.data[d.target.value])
  }

  /** Once visible, the file never changes; and only a Link makes it visible. */
  lemma {:induction false} FirstWriterStays(d: Disk, step: Step)
    requires Inv(d) && Enabled(d, step)
    ensures Visible(d).Some? ==> Visible(Do(d, step)) == Visible(d)
    ensures Visible(d).None? && Visible(Do(d, step)).Some? ==> step.Link?
  {
    if step.Append? { assert AttemptOk(d, step.a); }
  }

  /** The link is exactly a first-writer-wins Put of the actor's whole content. */
  lemma {:induction false} LinkIsPut(d: Disk, a: Actor)
    requires Inv(d) && Enabled(d, Link(a))
    ensures Visible(Do(d, Link(a))) == KeyProtocol.FirstWriterWins(Visible(d), d.actors[a].content)
  {
    assert AttemptOk(d, a);
  }

  lemma {:induction false} AttemptsStayOk(d: Disk, step: Step, a: Actor)
    requires Inv(d) && Enabled(d, step) && a in Do(d, step).actors
    ensures AttemptOk(Do(d, step), a)
  {
    FirstWriterStays(d, step);
    if a in d.actors { assert AttemptOk(d, a); }
    if step.Append? || step.Link? {
      assert AttemptOk(d, step.a);
      assert Holds(d.actors[step.a].stage, d.actors[step.a].stage.ino);
      assert step.a != a && (d.actors[a].stage.Writing? || d.actors[a].stage.Written?) ==>
        Holds(d.actors[a].stage, d.actors[a].stage.ino);
    }
    if step.Link? { LinkIsPut(d, step.a); }
  }

  lemma {:induction false} WinnerStays(d: Disk, step: Step)
    requires Inv(d) && Enabled(d, step)
    ensures var d' := Do(d, step);
            d'.target.Some? ==> d'.target.value in d'.data && exists a :: a in d'.actors && d'.actors[a].content == d'.data[d'.target.value]
  {
    var d' := Do(d, step);
    FirstWriterStays(d, step);
    if d.target.Some? {
      var a :| a in d.actors && d.actors[a].content == d.data[d.target.value];
      assert a in d'.actors && d'.actors[a].content == d.actors[a].content;
    } else if step.Link? {
      assert AttemptOk(d, step.a);
      assert d'.actors[step.a].content == d.actors[step.a].content;
    }
  }

  lemma {:induction false} StepKeepsInv(d: Disk, step: Step)
    requires Inv(d) && Enabled(d, step)
    ensures Inv(Do(d, step))
  {
    forall a | a in Do(d, step).actors ensures AttemptOk(Do(d, step), a) { AttemptsStayOk(d, step, a); }
    WinnerStays(d, step);
    StaysPrivate(d, step);
    hide AttemptOk, Private;
  }

  lemma {:induction false} StaysPrivate(d: Disk, step: Step)
    requires Inv(d) && Enabled(d, step)
    ensures Private(Do(d, step))
  {
    var d' := Do(d, step);
    forall a, ino | a in d'.actors && Holds(d'.actors[a].stage, ino)
      ensures a in d.actors && (Holds(d.actors[a].stage, ino) || step == Create(a, ino))
    {
    }
    if step.Create? {
      forall a | a in d.actors ensures !Holds(d.actors[a].stage, step.ino) { assert AttemptOk(d, a); }
    }
  }

  lemma {:induction false} RunKeepsInv(d: Disk, steps: seq<Step>)
    requires Inv(d) && Ok(d, steps)
    ensures Inv(Final(d, steps)) && Final(d, steps).size == d.size
    ensures Visible(d).Some? ==> Visible(Final(d, steps)) == Visible(d)
    decreases |steps|
  {
    if steps != [] {
      StepKeepsInv(d, steps[0]);
      FirstWriterStays(d, steps[0]);
      RunKeepsInv(Do(d, steps[0]), steps[1..]);
    }
  }

  /**
   * One key.  However the creators race and die, everyone who gets a key gets
   * the same one; a reader never sees a partial file; and what is visible
   * after `steps` stays visible, unchanged, after any `more`.
   */
  lemma {:induction false} OneKey(size: nat, steps: seq<Step>, more: seq<Step>)
    requires Ok(Initial(size), steps) && Ok(Final(Initial(size), steps), more)
    ensures var d := Final(Initial(size), steps);
            && (forall a <- d.actors :: d.actors[a].stage.Got? ==> Visible(d) == Some(d.actors[a].stage.key))
            && (Visible(d).Some? ==> |Visible(d).value| == size && Visible(Final(d, more)) == Visible(d))
            && (Visible(d).Some? ==> exists a :: a in d.actors && d.actors[a].content == Visible(d).value)
  {
    assert Inv(Initial(size));
    RunKeepsInv(Initial(size), steps);
    var d := Final(Initial(size), steps);
    RunKeepsInv(d, more);
    assert forall a <- d.actors :: AttemptOk(d, a);
  }

  // ---------------------------------------------------------------- everyone finishes

  /** What an actor does next when it is left alone; `ino` is a new temporary file's. */
  function NextStep(d: Disk, a: Actor, ino: Inode): Step
    requires a in d.actors
  {
    var t := d.actors[a];
    match t.stage
    case Make => Create(a, ino)
    case Writing(i) =>
      if i in d.data && |d.data[i]| < |t.content| then Append(a, |t.content| - |d.data[i]|) else Close(a)
    case Written(_) => Link(a)
    case _ => Read(a)
  }

  /** How many steps are left. */
  function Left(d: Disk, a: Actor): nat
    requires a in d.actors
  {
    match d.actors[a].stage
    case Check => 6
    case Make => 5
    case Writing(i) => if i in d.data && |d.data[i]| < |d.actors[a].content| then 4 else 3
    case Written(_) => 2
    case Lost => 1
    case _ => 0
  }

  /** An actor that has not failed can go on, and is one step nearer. */
  lemma {:induction false} NextIsPossible(d: Disk, a: Actor, ino: Inode)
    requires Inv(d) && a in d.actors && !d.actors[a].stage.Failed? && !d.actors[a].stage.Got?
    requires d.actors[a].stage.Check? || d.actors[a].stage.Make? ==> ino !in d.data
    ensures var s := NextStep(d, a, ino);
            && Enabled(d, s)
            && var d' := Do(d, s);
               && Left(d', a) < Left(d, a) && !d'.actors[a].stage.Failed? && d'.actors[a].content == d.actors[a].content
               && (d'.actors[a].stage.Check? || d'.actors[a].stage.Make? ==> ino !in d'.data)
               && Visible(d') == (if s.Link? then Some(Winner(d, a)) else Visible(d))
               && (d'.actors[a].stage.Got? ==> Visible(d') == Some(Winner(d, a)))
  {
    assert AttemptOk(d, a);
    if d.target.Some? {
      var b :| b in d.actors && d.actors[b].content == d.data[d.target.value];
      assert AttemptOk(d, b);
    }
  }

  /** The key the actor must end up with: the visible one, or its own if it is the first. */
  function Winner(d: Disk, a: Actor): Bytes
    requires a in d.actors
  {
    if Visible(d).Some? then Visible(d).value else d.actors[a].content
  }

  predicate Of(step: Step, a: Actor) { !step.Remove? && step.a == a }

  /** From any reachable state an actor that has not failed gets the key by its own steps: the visible one, or its own. */
  lemma {:induction false} AloneFinishes(d: Disk, a: Actor, ino: Inode) returns (steps: seq<Step>)
    requires Inv(d) && a in d.actors && !d.actors[a].stage.Failed?
    requires d.actors[a].stage.Check? || d.actors[a].stage.Make? ==> ino !in d.data
    ensures Ok(d, steps) && forall s <- steps :: Of(s, a)
    ensures a in Final(d, steps).actors
    ensures Final(d, steps).actors[a].stage == Got(Winner(d, a)) && Visible(Final(d, steps)) == Some(Winner(d, a))
    decreases Left(d, a)
  {
    if d.actors[a].stage.Got? {
      assert AttemptOk(d, a);
      return [];
    }
    var s := NextStep(d, a, ino);
    NextIsPossible(d, a, ino);
    StepKeepsInv(d, s);
    var rest := AloneFinishes(Do(d, s), a, ino);
    steps := [s] + rest;
    assert steps[0] == s && steps[1..] == rest;
  }

  /** Whatever happened before, a newcomer left alone gets the one key, and makes its own visible if there is none. */
  lemma {:induction false} NewcomerGetsTheKey(size: nat, before: seq<Step>, a: Actor, content: Bytes, ino: Inode) returns (steps: seq<Step>)
    requires Ok(Initial(size), before) && |content| == size
    requires var d := Final(Initial(size), before); a !in d.actors && ino !in d.data
    ensures var d := Final(Initial(size), before);
            && Ok(d, steps) && (forall s <- steps :: Of(s, a))
            && a in Final(d, steps).actors
            && var key := if Visible(d).Some? then Visible(d).value else content;
               Final(d, steps).actors[a].stage == Got(key) && Visible(Final(d, steps)) == Some(key)
  {
    assert Inv(Initial(size));
    RunKeepsInv(Initial(size), before);
    var d := Final(Initial(size), before);
    StepKeepsInv(d, Join(a, content));
    var rest := AloneFinishes(Do(d, Join(a, content)), a, ino);
    steps := [Join(a, content)] + rest;
    assert steps[1..] == rest;
    hide AttemptOk, Private;
  }
}
