/** The diagnostics event log (tools/kickui/EventLog.cc): a log of at most 500 entries that
    stands for an unbounded one with an acknowledge mark. */
module EventLog {

  const LIMIT := 500

  datatype Entry = Entry(when: string, text: string, severe: bool)

  /** What is kept: the retained entries and how many of them are acknowledged. */
  datatype Kept = Kept(entries: seq<Entry>, acked: nat)

  /** The whole story: every entry since the last clear, and the acknowledge mark. */
  datatype Story = Story(all: seq<Entry>, mark: nat)

  datatype Action = Log(entry: Entry) | AckAll | Clear

  function Dropped(s: Story): nat { if |s.all| > LIMIT then |s.all| - LIMIT else 0 }

  /** The log a story is kept as. */
  function View(s: Story): Kept {
    var d := Dropped(s);
    Kept(s.all[d..], if s.mark > d then s.mark - d else 0)
  }

  /** The entries past the mark that are not dropped yet. */
  function Unread(s: Story): seq<Entry>
    requires Sound(s)
  {
    s.all[if s.mark > Dropped(s) then s.mark else Dropped(s)..]
  }

  predicate Sound(s: Story) { s.mark <= |s.all| }

  function Tell(s: Story, a: Action): Story {
    match a
    case Log(e) => Story(s.all + [e], s.mark)
    case AckAll => Story(s.all, |s.all|)
    case Clear => Story([], 0)
  }

  /** Entries leave at the front, acknowledged ones first. */
  function Trimmed(k: Kept): (r: Kept)
    decreases |k.entries|
  {
    if |k.entries| > LIMIT then Trimmed(Kept(k.entries[1..], if k.acked > 0 then k.acked - 1 else 0)) else k
  }

  function Step(k: Kept, a: Action): Kept {
    match a
    case Log(e) => Trimmed(Kept(k.entries + [e], k.acked))
    case AckAll => Kept(k.entries, |k.entries|)
    case Clear => Kept([], 0)
  }

  class Log {
    var entries: seq<Entry>
    var acked: nat

    constructor ()
      ensures Snapshot() == Kept([], 0)
    {
      entries, acked := [], 0;
    }

    ghost function Snapshot(): Kept
      reads this
    {
      Kept(entries, acked)
    }

    method Append(when: string, text: string, severe: bool)
      modifies this
      ensures Snapshot() == Step(old(Snapshot()), Action.Log(Entry(when, text, severe)))
    {
      entries := entries + [Entry(when, text, severe)];
      while |entries| > LIMIT
        invariant Trimmed(Snapshot()) == Step(old(Snapshot()), Action.Log(Entry(when, text, severe)))
      {
        entries := entries[1..];
        if acked > 0 {
          acked := acked - 1;
        }
      }
    }

    method AckAll()
      modifies this`acked
      ensures Snapshot() == Step(old(Snapshot()), Action.AckAll)
    {
      acked := |entries|;
    }

    method Clear()
      modifies this
      ensures Snapshot() == Step(old(Snapshot()), Action.Clear)
    {
      entries, acked := [], 0;
    }

    /** Whatever story the log stands for, the number of its unread entries. */
    method Unacked() returns (n: nat)
      ensures forall s :: Sound(s) && View(s) == Snapshot() ==> n == |Unread(s)|
      ensures acked <= |entries| ==> n == |entries[acked..]|
      ensures acked > |entries| ==> n == 0
    {
      if |entries| < acked {
        return 0;
      }
      n := |entries| - acked;
    }

    /** Whether one of them is severe. */
    method UnackedSevere() returns (b: bool)
      ensures forall s :: Sound(s) && View(s) == Snapshot() ==> (b <==> exists e :: e in Unread(s) && e.severe)
      ensures b <==> exists i :: acked <= i < |entries| && entries[i].severe
    {
      var i := acked;
      while i < |entries|
        invariant acked <= i
        invariant forall j :: acked <= j < i && j < |entries| ==> !entries[j].severe
      {
        if entries[i].severe {
          SevereUnread(Snapshot());
          return true;
        }
        i := i + 1;
      }
      SevereUnread(Snapshot());
      b := false;
    }
  }

  /** The unread entries of a story are those the log holds past the acknowledged ones. */
  lemma {:induction false} UnreadKept(s: Story)
    requires Sound(s)
    ensures var k := View(s); k.acked <= |k.entries| && Unread(s) == k.entries[k.acked..]
  {
  }

  lemma {:induction false} SevereUnread(k: Kept)
    ensures forall s :: Sound(s) && View(s) == k ==>
              ((exists e :: e in Unread(s) && e.severe)
               <==> exists i :: k.acked <= i < |k.entries| && k.entries[i].severe)
  {
    forall s | Sound(s) && View(s) == k
      ensures (exists e :: e in Unread(s) && e.severe)
              <==> exists i :: k.acked <= i < |k.entries| && k.entries[i].severe
    {
      UnreadKept(s);
      SevereRest(k.entries, k.acked, Unread(s));
    }
  }

  lemma {:induction false} SevereRest(entries: seq<Entry>, from: nat, rest: seq<Entry>)
    requires from <= |entries| && rest == entries[from..]
    ensures (exists e :: e in rest && e.severe) <==> exists i :: from <= i < |entries| && entries[i].severe
  {
    if e :| e in rest && e.severe {
      var i :| 0 <= i < |rest| && rest[i] == e;
      assert entries[from + i] == e;
    }
    if i :| from <= i < |entries| && entries[i].severe {
      assert rest[i - from] == entries[i];
    }
  }

  // ---- Refinement -----------------------------------------------------------

  /** What the log does to its view is the view of what the story does. */
  lemma {:induction false} StepRefines(s: Story, a: Action)
    requires Sound(s)
    ensures Sound(Tell(s, a)) && Step(View(s), a) == View(Tell(s, a))
  {
    if a.Log? {
      var k := Kept(View(s).entries + [a.entry], View(s).acked);
      if |s.all| < LIMIT {
        assert k.entries == (s.all + [a.entry])[0..];
      } else {
        var d := Dropped(s);
        assert k.entries[1..] == (s.all + [a.entry])[d + 1..];
        assert |k.entries| == LIMIT + 1;
        assert Trimmed(k) == Kept(k.entries[1..], if k.acked > 0 then k.acked - 1 else 0);
      }
    }
  }

  function Told(actions: seq<Action>): Story
    decreases |actions|
  {
    if actions == [] then Story([], 0) else Tell(Told(actions[..|actions| - 1]), actions[|actions| - 1])
  }

  function Run(actions: seq<Action>): Kept
    decreases |actions|
  {
    if actions == [] then Kept([], 0) else Step(Run(actions[..|actions| - 1]), actions[|actions| - 1])
  }

  lemma {:induction false} RunRefines(actions: seq<Action>)
    ensures Sound(Told(actions)) && Run(actions) == View(Told(actions))
    decreases |actions|
  {
    if actions != [] {
      RunRefines(actions[..|actions| - 1]);
      StepRefines(Told(actions[..|actions| - 1]), actions[|actions| - 1]);
    }
  }

  /** After any run the log holds the last entries of the story, at most 500, and past its
      acknowledged ones exactly the unread entries of the story. */
  lemma {:induction false} AlwaysTells(actions: seq<Action>)
    ensures var k, s := Run(actions), Told(actions);
            var d := |s.all| - |k.entries|;
            && Sound(s)
            && |k.entries| == (if |s.all| > LIMIT then LIMIT else |s.all|) && s.all[d..] == k.entries
            && k.acked <= |k.entries| && k.entries[k.acked..] == Unread(s)
            && Unread(s) == s.all[if s.mark > d then s.mark else d..]
  {
    RunRefines(actions);
    UnreadKept(Told(actions));
  }
}
