/** What the exclusions withheld from a review, grouped for a reader: workspace/exclusions.py. */
module Exclusions {
  import opened Wrappers
  import opened Text

  predicate IsDirectory(d: string) {
    d != "" && d[|d| - 1] == '/'
  }

  /** Some kept file lies under the directory. */
  predicate Reviewed(kept: seq<string>, d: string) {
    IsDirectory(d) && exists k | k in kept :: d <= k
  }

  function Withheld(changed: seq<string>, kept: seq<string>): set<string> {
    (set p | p in changed) - (set k | k in kept)
  }

  /** Where the highest directory of `path` that nothing kept lies under ends, looking from `i`. */
  function CutFrom(path: string, keptDirs: set<string>, i: nat): (cut: Option<nat>)
    requires i <= |path|
    ensures cut.Some? ==> i < cut.value <= |path| && path[cut.value - 1] == '/' && path[..cut.value] !in keptDirs
    ensures forall j | i <= j < (if cut.Some? then cut.value - 1 else |path|) :: path[j] == '/' ==>
      path[..j + 1] in keptDirs
    decreases |path| - i
  {
    if i == |path| then None
    else if path[i] == '/' && path[..i + 1] !in keptDirs then Some(i + 1)
    else CutFrom(path, keptDirs, i + 1)
  }

  function KeptDirectories(kept: seq<string>): set<string> {
    set k, i | k in kept && 0 <= i < |k| && k[i] == '/' :: k[..i + 1]
  }

  function GroupOf(path: string, kept: seq<string>): string {
    var cut := CutFrom(path, KeptDirectories(kept), 0);
    if cut.Some? then path[..cut.value] else path
  }

  lemma KeptDirectoriesAreReviewed(kept: seq<string>, d: string)
    ensures d in KeptDirectories(kept) <==> Reviewed(kept, d)
  {
    if Reviewed(kept, d) {
      var k :| k in kept && d <= k;
      assert k[|d| - 1] == '/' && k[..|d| - 1 + 1] == d;
    }
  }

  /** The group of a path: its highest unreviewed directory if it has one, and itself otherwise. */
  lemma GroupIsHighest(path: string, kept: seq<string>)
    ensures var g := GroupOf(path, kept);
      && g <= path
      && (IsDirectory(g) && !Reviewed(kept, g) <==> exists d :: d <= path && IsDirectory(d) && !Reviewed(kept, d))
      && (forall d | d <= path && IsDirectory(d) && !Reviewed(kept, d) :: g <= d)
      && (!(IsDirectory(g) && !Reviewed(kept, g)) ==> g == path)
  {
    var keptDirs := KeptDirectories(kept);
    var cut := CutFrom(path, keptDirs, 0);
    var g := GroupOf(path, kept);
    KeptDirectoriesAreReviewed(kept, g);
    forall d | d <= path && IsDirectory(d) && !Reviewed(kept, d) ensures cut.Some? && g <= d {
      KeptDirectoriesAreReviewed(kept, d);
      assert path[|d| - 1] == '/' && path[..|d| - 1 + 1] == d;
    }
  }

  // ----- The grouping --------------------------------------------------------------------------

  function Members(changed: seq<string>, kept: seq<string>, g: string): set<string> {
    set p | p in Withheld(changed, kept) && GroupOf(p, kept) == g
  }

  function Groups(changed: seq<string>, kept: seq<string>): set<string> {
    set p | p in Withheld(changed, kept) :: GroupOf(p, kept)
  }

  datatype Entry = Entry(name: string, files: nat)

  /** A directory standing for one file is named as that file. */
  predicate Stands(e: Entry, members: set<string>, g: string) {
    e.files == |members| && if |members| == 1 then members == {e.name} else e.name == g
  }

  /** The entries are the groups, in the order of the groups. */
  ghost predicate Lists(entries: seq<Entry>, groups: seq<string>, changed: seq<string>, kept: seq<string>) {
    && |entries| == |groups| && Ascending(groups)
    && (forall g :: g in groups <==> g in Groups(changed, kept))
    && (forall i | 0 <= i < |groups| :: Stands(entries[i], Members(changed, kept, groups[i]), groups[i]))
  }

  predicate Distinct(s: seq<string>) {
    forall i, j | 0 <= i < j < |s| :: s[i] != s[j]
  }

  lemma {:induction false} DistinctCount(s: seq<string>, t: set<string>)
    requires Distinct(s) && forall p :: p in s <==> p in t
    ensures |s| == |t|
    decreases |s|
  {
    if s == [] {
      assert t == {};
    } else {
      var last := s[|s| - 1];
      forall p ensures p in s[..|s| - 1] <==> p in t - {last} {
        if p in t - {last} {
          var i :| 0 <= i < |s| && s[i] == p;
          assert s[..|s| - 1][i] == p;
        }
      }
      DistinctCount(s[..|s| - 1], t - {last});
    }
  }

  /** The table of groups holds exactly the paths in `done`, each once and under its group. */
  ghost predicate Filed(groups: map<string, seq<string>>, done: set<string>, kept: seq<string>) {
    && (forall g | g in groups :: groups[g] != [] && Distinct(groups[g]))
    && (forall g, p | g in groups && p in groups[g] :: p in done && GroupOf(p, kept) == g)
    && (forall p | p in done :: GroupOf(p, kept) in groups && p in groups[GroupOf(p, kept)])
  }

  lemma OneMoreFiled(groups: map<string, seq<string>>, done: set<string>, kept: seq<string>, path: string, g: string,
                     paths: seq<string>)
    requires Filed(groups, done, kept) && path !in done && g == GroupOf(path, kept)
    requires paths == (if g in groups then groups[g] else []) + [path]
    ensures Filed(groups[g := paths], done + {path}, kept)
  {
    forall p | p in done + {path}
      ensures GroupOf(p, kept) in groups[g := paths] && p in groups[g := paths][GroupOf(p, kept)]
    {
      if p == path {
        assert paths[|paths| - 1] == path;
      } else if GroupOf(p, kept) == g {
        assert p in groups[g];
      }
    }
  }

  lemma FiledStands(groups: map<string, seq<string>>, changed: seq<string>, kept: seq<string>, g: string, e: Entry)
    requires Filed(groups, Withheld(changed, kept), kept) && g in groups
    requires e == if |groups[g]| == 1 then Entry(groups[g][0], 1) else Entry(g, |groups[g]|)
    ensures Stands(e, Members(changed, kept, g), g)
  {
    DistinctCount(groups[g], Members(changed, kept, g));
    if |groups[g]| == 1 {
      assert groups[g] == [e.name];
      assert Members(changed, kept, g) == {e.name};
    }
  }

  /** The first `n` of the paths, as a set. */
  function Taken(paths: seq<string>, n: nat): set<string>
    requires n <= |paths|
  {
    set i | 0 <= i < n :: paths[i]
  }

  lemma TakeOneMore(paths: seq<string>, n: nat)
    requires n < |paths| && Ascending(paths)
    ensures Taken(paths, n + 1) == Taken(paths, n) + {paths[n]} && paths[n] !in Taken(paths, n)
  {
    if paths[n] in Taken(paths, n) {
      var i :| 0 <= i < n && paths[i] == paths[n];
      BeforeIsTotal(paths[i], paths[n]);
      assert false;
    }
  }

  /** `omitted`: each entry is a path, and how many changed files it stands for. */
  method Omitted(changed: seq<string>, kept: seq<string>) returns (entries: seq<Entry>)
    ensures Lists(entries, Sorted(Groups(changed, kept)), changed, kept)
  {
    var keptDirs := KeptDirectories(kept);
    var groups: map<string, seq<string>> := map[];
    var withheld := Sorted(Withheld(changed, kept));
    for i := 0 to |withheld|
      invariant Filed(groups, Taken(withheld, i), kept)
    {
      var path := withheld[i];
      var cut := CutFrom(path, keptDirs, 0);
      var group := if cut.Some? then path[..cut.value] else path;
      var paths := (if group in groups then groups[group] else []) + [path];
      TakeOneMore(withheld, i);
      OneMoreFiled(groups, Taken(withheld, i), kept, path, group, paths);
      groups := groups[group := paths];
    }
    assert Taken(withheld, |withheld|) == Withheld(changed, kept);
    var names := Sorted(groups.Keys);
    entries := [];
    for i := 0 to |names|
      invariant |entries| == i
      invariant forall j | 0 <= j < i :: Stands(entries[j], Members(changed, kept, names[j]), names[j])
    {
      var g := names[i];
      var entry := if |groups[g]| == 1 then Entry(groups[g][0], 1) else Entry(g, |groups[g]|);
      FiledStands(groups, changed, kept, g, entry);
      entries := entries + [entry];
    }
    GroupsAreFiled(groups, changed, kept);
  }

  lemma GroupsAreFiled(groups: map<string, seq<string>>, changed: seq<string>, kept: seq<string>)
    requires Filed(groups, Withheld(changed, kept), kept)
    ensures groups.Keys == Groups(changed, kept)
  {
    forall g | g in groups ensures g in Groups(changed, kept) {
      var p := groups[g][0];
      assert p in groups[g];
      assert p in Withheld(changed, kept) && GroupOf(p, kept) == g;
    }
  }

  // ----- What the listing promises -------------------------------------------------------------

  /** An entry of one file is that file; any other is a directory, and stands for what lies under it. */
  predicate Covers(e: Entry, path: string) {
    if e.files == 1 then e.name == path else e.name <= path
  }

  function Files(entries: seq<Entry>): nat {
    if entries == [] then 0 else Files(entries[..|entries| - 1]) + entries[|entries| - 1].files
  }

  lemma TwoMembers(s: set<string>) returns (p: string, q: string)
    requires |s| > 1
    ensures p in s && q in s && p != q
  {
    p :| p in s;
    assert |s - {p}| == |s| - 1;
    q :| q in s - {p};
  }

  /** The group an entry stands for is one path, or an unreviewed directory. */
  lemma LargeGroupIsDirectory(changed: seq<string>, kept: seq<string>, g: string)
    requires |Members(changed, kept, g)| > 1
    ensures IsDirectory(g) && !Reviewed(kept, g)
  {
    var p, q := TwoMembers(Members(changed, kept, g));
    GroupIsHighest(p, kept);
    GroupIsHighest(q, kept);
  }

  /** No named directory was read, and every directory above it was: the groups are the highest. */
  lemma NamedDirectoriesAreHighest(changed: seq<string>, kept: seq<string>, entries: seq<Entry>, names: seq<string>,
                                   i: nat)
    requires Lists(entries, names, changed, kept) && i < |entries| && entries[i].files != 1
    ensures IsDirectory(entries[i].name) && forall k | k in kept :: !(entries[i].name <= k)
    ensures forall d | d < entries[i].name && IsDirectory(d) :: exists k :: k in kept && d <= k
  {
    var g := names[i];
    assert Stands(entries[i], Members(changed, kept, g), g);
    assert g in names;
    var p :| p in Withheld(changed, kept) && GroupOf(p, kept) == g;
    assert p in Members(changed, kept, g);
    LargeGroupIsDirectory(changed, kept, g);
    GroupIsHighest(p, kept);
    forall d | d < g && IsDirectory(d) ensures exists k :: k in kept && d <= k {
      assert d <= p;
    }
  }

  /** No named directory lies inside another. */
  lemma NamedDirectoriesAreDisjoint(changed: seq<string>, kept: seq<string>, entries: seq<Entry>, names: seq<string>,
                                    i: nat, j: nat)
    requires Lists(entries, names, changed, kept) && i < |entries| && j < |entries| && i != j
    requires entries[i].files != 1 && entries[j].files != 1
    ensures !(entries[i].name <= entries[j].name)
  {
    NamedDirectoriesAreHighest(changed, kept, entries, names, i);
    NamedDirectoriesAreHighest(changed, kept, entries, names, j);
    assert Stands(entries[i], Members(changed, kept, names[i]), names[i]);
    assert Stands(entries[j], Members(changed, kept, names[j]), names[j]);
    NamesDiffer(names, i, j);
  }

  lemma NamesDiffer(names: seq<string>, i: nat, j: nat)
    requires Ascending(names) && i < |names| && j < |names| && i != j
    ensures names[i] != names[j]
  {
    BeforeIsTotal(names[i], names[j]);
  }

  /** An entry covers a withheld path exactly when it is the entry of that path's group. */
  lemma CoversItsGroup(changed: seq<string>, kept: seq<string>, entries: seq<Entry>, names: seq<string>, path: string,
                       i: nat)
    requires Lists(entries, names, changed, kept) && i < |entries| && path in Withheld(changed, kept)
    ensures Covers(entries[i], path) <==> names[i] == GroupOf(path, kept)
  {
    var g, e := names[i], entries[i];
    assert Stands(e, Members(changed, kept, g), g);
    GroupIsHighest(path, kept);
    if g == GroupOf(path, kept) {
      assert path in Members(changed, kept, g);
    } else if e.files == 1 {
      assert e.name in Members(changed, kept, g);
    } else if e.name <= path {
      NamedDirectoriesAreHighest(changed, kept, entries, names, i);
    }
  }

  /** Every withheld path is covered, and by one entry only. */
  lemma EachPathIsCoveredOnce(changed: seq<string>, kept: seq<string>, entries: seq<Entry>, names: seq<string>,
                              path: string)
    returns (i: nat)
    requires Lists(entries, names, changed, kept) && path in Withheld(changed, kept)
    ensures i < |entries| && forall j | 0 <= j < |entries| :: Covers(entries[j], path) <==> j == i
  {
    assert GroupOf(path, kept) in names;
    i :| 0 <= i < |names| && names[i] == GroupOf(path, kept);
    forall j | 0 <= j < |entries| ensures Covers(entries[j], path) <==> j == i {
      CoversItsGroup(changed, kept, entries, names, path, j);
      if j != i {
        NamesDiffer(names, i, j);
      }
    }
  }

  /** Nothing a review was shown is covered. */
  lemma KeptPathsAreNotCovered(changed: seq<string>, kept: seq<string>, entries: seq<Entry>, names: seq<string>,
                               path: string, i: nat)
    requires Lists(entries, names, changed, kept) && i < |entries| && path in kept
    ensures !Covers(entries[i], path)
  {
    if entries[i].files == 1 {
      assert Stands(entries[i], Members(changed, kept, names[i]), names[i]);
      assert entries[i].name in Members(changed, kept, names[i]);
    } else {
      NamedDirectoriesAreHighest(changed, kept, entries, names, i);
    }
  }

  /** Two withheld files share an entry exactly when a directory nothing was read under holds both. */
  lemma SharedEntryIsSharedDirectory(changed: seq<string>, kept: seq<string>, entries: seq<Entry>, names: seq<string>,
                                     p: string, q: string)
    requires Lists(entries, names, changed, kept) && p != q && p in Withheld(changed, kept)
    requires q in Withheld(changed, kept)
    ensures (exists i :: 0 <= i < |entries| && Covers(entries[i], p) && Covers(entries[i], q))
            <==> exists d :: d <= p && d <= q && IsDirectory(d) && !Reviewed(kept, d)
  {
    GroupIsHighest(p, kept);
    GroupIsHighest(q, kept);
    var i := EachPathIsCoveredOnce(changed, kept, entries, names, p);
    CoversItsGroup(changed, kept, entries, names, p, i);
    CoversItsGroup(changed, kept, entries, names, q, i);
    if d :| d <= p && d <= q && IsDirectory(d) && !Reviewed(kept, d) {
      var g, h := GroupOf(p, kept), GroupOf(q, kept);
      assert g <= d && h <= d;
      assert g <= q && h <= p;
    }
  }

  function MembersOf(changed: seq<string>, kept: seq<string>, names: seq<string>): set<string> {
    set p | p in Withheld(changed, kept) && GroupOf(p, kept) in names
  }

  lemma OneMoreGroup(changed: seq<string>, kept: seq<string>, names: seq<string>, g: string)
    requires g !in names
    ensures |MembersOf(changed, kept, names + [g])| == |MembersOf(changed, kept, names)| + |Members(changed, kept, g)|
  {
    var before, last := MembersOf(changed, kept, names), Members(changed, kept, g);
    assert before !! last;
    assert MembersOf(changed, kept, names + [g]) == before + last;
  }

  lemma {:induction false} FilesCountMembers(changed: seq<string>, kept: seq<string>, entries: seq<Entry>,
                                             names: seq<string>)
    requires |entries| == |names| && Distinct(names)
    requires forall i | 0 <= i < |names| :: entries[i].files == |Members(changed, kept, names[i])|
    ensures Files(entries) == |MembersOf(changed, kept, names)|
    decreases |names|
  {
    if names != [] {
      var n := |names| - 1;
      FilesCountMembers(changed, kept, entries[..n], names[..n]);
      OneMoreGroup(changed, kept, names[..n], names[n]);
      assert names == names[..n] + [names[n]];
    }
  }

  /** The counts add up to the withheld files: the grouping is a partition. */
  lemma CountsAddUp(changed: seq<string>, kept: seq<string>, entries: seq<Entry>, names: seq<string>)
    requires Lists(entries, names, changed, kept)
    ensures Files(entries) == |Withheld(changed, kept)|
  {
    forall i, j | 0 <= i < j < |names| ensures names[i] != names[j] {
      NamesDiffer(names, i, j);
    }
    forall i | 0 <= i < |names| ensures entries[i].files == |Members(changed, kept, names[i])| {
      assert Stands(entries[i], Members(changed, kept, names[i]), names[i]);
    }
    FilesCountMembers(changed, kept, entries, names);
    forall p | p in Withheld(changed, kept) ensures GroupOf(p, kept) in names {
      assert GroupOf(p, kept) in Groups(changed, kept);
    }
    assert MembersOf(changed, kept, names) == Withheld(changed, kept);
  }
}
