/** The shared SQLite file: store.py. One object, whose fields are its tables. */
module Store {
  import opened Wrappers
  import opened Model
  import Breaker
  import Config

  /** The pool arithmetic one daemon published for the others to adopt. */
  datatype Policy = Policy(authorityRepo: string, fields: Config.Shared)

  /** A row of `runs`; its findings are represented by their numbers, and a description by its command. */
  datatype Run = Run(
    key: string, repo: string, pr: int, command: Command, headSha: string, numbers: seq<nat>, recordedAt: Time,
    publishedAt: Option<Time>, publishAttempts: nat, publishFailedAt: Option<Time>)

  type Watermarks = map<string, Time>

  /** `advance_watermark`: forward to `at`, never backwards. */
  function Advanced(marks: Watermarks, name: string, at: Time): Watermarks {
    if name in marks && marks[name] >= at then marks else marks[name := at]
  }

  /** A watermark is the highest instant it was advanced to, whichever came first; no other moves. */
  lemma AdvancedInAnyOrder(marks: Watermarks, name: string, a: Time, b: Time)
    ensures Advanced(Advanced(marks, name, a), name, b) == Advanced(Advanced(marks, name, b), name, a)
    ensures var mark := Advanced(Advanced(marks, name, a), name, b)[name];
      && mark >= a && mark >= b && (name in marks ==> mark >= marks[name])
      && (mark == a || mark == b || (name in marks && mark == marks[name]))
    ensures Advanced(marks, name, a) - {name} == marks - {name}
  {
  }

  /** A watermark's name carries its repository; before there were several, it did not. */
  predicate IsQualified(name: string) {
    ':' in name
  }

  /** `adopt_legacy_watermarks`: the unqualified rows renamed and gone, unless any row is qualified. */
  function Adopted(marks: Watermarks, stems: seq<string>, names: seq<string>): Watermarks
    requires |stems| == |names|
  {
    if exists n | n in marks :: IsQualified(n) then marks
    else Renamed(marks, stems, names, |stems|)
  }

  /** The rows the first `n` stems are renamed to. */
  function Renamed(marks: Watermarks, stems: seq<string>, names: seq<string>, n: nat): Watermarks
    requires n <= |stems| == |names|
  {
    if n == 0 then map[]
    else
      var before := Renamed(marks, stems, names, n - 1);
      if stems[n - 1] in marks then before[names[n - 1] := marks[stems[n - 1]]] else before
  }

  /** What is adopted keeps its instant under its new name, and nothing else is kept. */
  lemma {:induction false} RenamedExactly(marks: Watermarks, stems: seq<string>, names: seq<string>, n: nat,
                                          name: string)
    requires n <= |stems| == |names| && forall i, j | 0 <= i < j < |names| :: names[i] != names[j]
    ensures var renamed := Renamed(marks, stems, names, n);
      && (name in renamed <==> exists i | 0 <= i < n :: names[i] == name && stems[i] in marks)
      && forall i | 0 <= i < n && names[i] == name && stems[i] in marks :: renamed[name] == marks[stems[i]]
  {
    if n > 0 {
      RenamedExactly(marks, stems, names, n - 1, name);
    }
  }

  /** As long as no name has a colon, a watermark is afterwards under its new name, and no other is there. */
  lemma AdoptedExactly(marks: Watermarks, stems: seq<string>, names: seq<string>, name: string)
    requires |stems| == |names| && forall i, j | 0 <= i < j < |names| :: names[i] != names[j]
    ensures (exists n | n in marks :: ':' in n) ==> Adopted(marks, stems, names) == marks
    ensures !(exists n | n in marks :: ':' in n) ==>
      var adopted := Adopted(marks, stems, names);
      && (name in adopted <==> exists i | 0 <= i < |stems| :: names[i] == name && stems[i] in marks)
      && forall i | 0 <= i < |stems| && names[i] == name && stems[i] in marks :: adopted[name] == marks[stems[i]]
  {
    if exists n | n in marks :: ':' in n {
      var n :| n in marks && ':' in n;
      assert IsQualified(n);
    } else {
      RenamedExactly(marks, stems, names, |stems|, name);
      assert forall n | n in marks :: !IsQualified(n);
    }
  }

  /** The rows belong to the first repository that finds them: no later one inherits any. */
  lemma OnlyTheFirstAdopts(marks: Watermarks, stems: seq<string>, names: seq<string>, stems': seq<string>,
                           names': seq<string>)
    requires |stems| == |names| && |stems'| == |names'| && forall i | 0 <= i < |names| :: IsQualified(names[i])
    ensures Adopted(Adopted(marks, stems, names), stems', names') == Adopted(marks, stems, names)
  {
    if !(exists n | n in marks :: IsQualified(n)) {
      RenamedAreQualified(marks, stems, names, |stems|);
      if Renamed(marks, stems, names, |stems|) == map[] {
        NothingToRename(stems', names', |stems'|);
      } else {
        var n :| n in Renamed(marks, stems, names, |stems|);
        assert IsQualified(n);
      }
    }
  }

  lemma {:induction false} RenamedAreQualified(marks: Watermarks, stems: seq<string>, names: seq<string>, n: nat)
    requires n <= |stems| == |names| && forall i | 0 <= i < |names| :: IsQualified(names[i])
    ensures forall k | k in Renamed(marks, stems, names, n) :: IsQualified(k)
  {
    if n > 0 {
      RenamedAreQualified(marks, stems, names, n - 1);
    }
  }

  lemma {:induction false} NothingToRename(stems: seq<string>, names: seq<string>, n: nat)
    requires n <= |stems| == |names|
    ensures Renamed(map[], stems, names, n) == map[]
  {
    if n > 0 {
      NothingToRename(stems, names, n - 1);
    }
  }

  class SqliteStore {
    var queue: Queue
    var ledger: Ledger
    var breaker: Breaker.State
    var runs: map<string, Run>
    var watermarks: map<string, Time>
    var policy: Option<Policy>

    constructor ()
      ensures queue == map[] && ledger == [] && breaker == Breaker.NEVER_TRIPPED
      ensures runs == map[] && watermarks == map[] && policy == None
    {
      queue, ledger, breaker := map[], [], Breaker.NEVER_TRIPPED;
      runs, watermarks, policy := map[], map[], None;
    }

    /** The watermark in force afterwards. */
    method AdvanceWatermark(name: string, at: Time) returns (inForce: Time)
      modifies `watermarks
      ensures watermarks == Advanced(old(watermarks), name, at)
      ensures inForce == watermarks[name]
    {
      if name in watermarks && watermarks[name] >= at {
        return watermarks[name];
      }
      watermarks := watermarks[name := at];
      inForce := at;
    }

    method AdoptLegacyWatermarks(stems: seq<string>, names: seq<string>)
      requires |stems| == |names|
      requires forall i | 0 <= i < |stems| :: !IsQualified(stems[i]) && IsQualified(names[i])
      modifies `watermarks
      ensures watermarks == Adopted(old(watermarks), stems, names)
    {
      if exists n | n in watermarks :: IsQualified(n) {
        return;
      }
      ghost var legacy := watermarks;
      for i := 0 to |stems|
        invariant forall n :: n in watermarks <==> n in legacy || n in Renamed(legacy, stems, names, i)
        invariant forall n | n in legacy :: watermarks[n] == legacy[n]
        invariant forall n | n in Renamed(legacy, stems, names, i) ::
          watermarks[n] == Renamed(legacy, stems, names, i)[n]
      {
        RenamedAreQualified(legacy, stems, names, i);
        if stems[i] in watermarks {
          watermarks := watermarks[names[i] := watermarks[stems[i]]];
        }
      }
      RenamedAreQualified(legacy, stems, names, |stems|);
      watermarks := map n | n in watermarks && IsQualified(n) :: watermarks[n];
    }

    /** Unconditional: the authority's file is the declared truth. */
    method PublishBudgetPolicy(published: Policy)
      modifies `policy
      ensures policy == Some(published)
    {
      policy := Some(published);
    }
  }
}
