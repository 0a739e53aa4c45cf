/** The hidden `command-tree` command (tree.go): a copy of the command hierarchy that keeps only
    the subcommands a filter accepts, together with everything below them. */
module CommandTree {

  /** A cobra command: its name, the flags that decide whether cobra offers it (deprecated,
      hidden, being its parent's help command, having something to run) and its subcommands
      in order. */
  datatype Command = Command(name: string, deprecated: bool, hidden: bool, isHelp: bool, runnable: bool,
                             children: seq<Command>)

  /** `IsAvailableCommand`: neither deprecated, hidden nor the help command, and either runnable
      or with an available subcommand (`HasAvailableSubCommands`). */
  predicate Available(c: Command)
    decreases c
  {
    && !c.deprecated && !c.hidden && !c.isHelp
    && (c.runnable || exists i :: 0 <= i < |c.children| && Available(c.children[i]))
  }

  /** A treeprint node: its title and its branches in the order they were added. */
  datatype Tree = Node(title: string, branches: seq<Tree>)

  /** `cmdToTree`: the root is labelled with the command's name, and `buildTree` adds a branch for
      each accepted subcommand, recursively. */
  function CmdToTree(cmd: Command, keep: Command -> bool): (t: Tree)
    ensures t.title == cmd.name
    ensures |t.branches| <= |cmd.children|
    decreases cmd, 1
  {
    Node(cmd.name, Branches(cmd.children, keep))
  }

  /** The loop of `buildTree` over the subcommands `cs`. */
  function Branches(cs: seq<Command>, keep: Command -> bool): (ts: seq<Tree>)
    ensures |ts| <= |cs|
    decreases cs, 0
  {
    if cs == [] then []
    else (if keep(cs[0]) then [CmdToTree(cs[0], keep)] else []) + Branches(cs[1..], keep)
  }

  /** The subcommands the filter accepts, in their order. */
  function Kept(cs: seq<Command>, keep: Command -> bool): (r: seq<Command>)
    ensures |r| <= |cs|
    ensures forall c :: c in r <==> c in cs && keep(c)
  {
    if cs == [] then [] else (if keep(cs[0]) then [cs[0]] else []) + Kept(cs[1..], keep)
  }

  function Names(cs: seq<Command>): (r: seq<string>)
    ensures |r| == |cs| && forall i :: 0 <= i < |cs| ==> r[i] == cs[i].name
  {
    if cs == [] then [] else [cs[0].name] + Names(cs[1..])
  }

  function Labels(ts: seq<Tree>): (r: seq<string>)
    ensures |r| == |ts| && forall i :: 0 <= i < |ts| ==> r[i] == ts[i].title
  {
    if ts == [] then [] else [ts[0].title] + Labels(ts[1..])
  }

  /** The branches are exactly the trees of the accepted subcommands, one each, in order. */
  lemma {:induction false} BranchesOfKept(cs: seq<Command>, keep: Command -> bool)
    ensures |Branches(cs, keep)| == |Kept(cs, keep)|
    ensures forall i :: 0 <= i < |Kept(cs, keep)| ==>
              Branches(cs, keep)[i] == CmdToTree(Kept(cs, keep)[i], keep)
  {
    if cs != [] {
      BranchesOfKept(cs[1..], keep);
    }
  }

  /** The branch labels of a node are the names of its accepted subcommands, in their order. */
  lemma BranchLabelsAreKeptNames(cmd: Command, keep: Command -> bool)
    ensures Labels(CmdToTree(cmd, keep).branches) == Names(Kept(cmd.children, keep))
  {
    BranchesOfKept(cmd.children, keep);
  }

  /** The tree of a command with nothing filtered out. */
  function Shape(cmd: Command): (t: Tree)
    ensures t.title == cmd.name && |t.branches| == |cmd.children|
    decreases cmd, 1
  {
    Node(cmd.name, Shapes(cmd.children))
  }

  function Shapes(cs: seq<Command>): (ts: seq<Tree>)
    ensures |ts| == |cs|
    decreases cs, 0
  {
    if cs == [] then [] else [Shape(cs[0])] + Shapes(cs[1..])
  }

  /** With a filter that accepts everything, the tree mirrors the whole command hierarchy. */
  lemma {:induction false} KeepAllMirrors(cmd: Command, keep: Command -> bool)
    requires forall c :: keep(c)
    ensures CmdToTree(cmd, keep) == Shape(cmd)
    decreases cmd, 1
  {
    KeepAllMirrorsAll(cmd.children, keep);
  }

  lemma {:induction false} KeepAllMirrorsAll(cs: seq<Command>, keep: Command -> bool)
    requires forall c :: keep(c)
    ensures Branches(cs, keep) == Shapes(cs)
    decreases cs, 0
  {
    if cs != [] {
      KeepAllMirrors(cs[0], keep);
      KeepAllMirrorsAll(cs[1..], keep);
    }
  }

  /** Every name in a command's hierarchy, the command's own included. */
  function AllNames(cmd: Command): set<string>
    decreases cmd, 1
  {
    {cmd.name} + NamesBelow(cmd.children)
  }

  function NamesBelow(cs: seq<Command>): set<string>
    decreases cs, 0
  {
    if cs == [] then {} else AllNames(cs[0]) + NamesBelow(cs[1..])
  }

  /** Every title in a tree, the root's included. */
  function TreeLabels(t: Tree): set<string>
    decreases t, 1
  {
    {t.title} + LabelsBelow(t.branches)
  }

  function LabelsBelow(ts: seq<Tree>): set<string>
    decreases ts, 0
  {
    if ts == [] then {} else TreeLabels(ts[0]) + LabelsBelow(ts[1..])
  }

  /** A title below the root comes from an accepted subcommand's own hierarchy. */
  lemma {:induction false} LabelsBelowFromKept(cs: seq<Command>, keep: Command -> bool, x: string)
    requires x in LabelsBelow(Branches(cs, keep))
    ensures exists j :: 0 <= j < |cs| && keep(cs[j]) && x in AllNames(cs[j])
    decreases cs
  {
    assert cs != [];
    var rest := Branches(cs[1..], keep);
    if keep(cs[0]) {
      assert Branches(cs, keep) == [CmdToTree(cs[0], keep)] + rest;
      if x in TreeLabels(CmdToTree(cs[0], keep)) {
        LabelsWithinNames(cs[0], keep);
        return;
      }
      assert Branches(cs, keep)[1..] == rest;
    } else {
      assert Branches(cs, keep) == rest;
    }
    LabelsBelowFromKept(cs[1..], keep, x);
    var j :| 0 <= j < |cs[1..]| && keep(cs[1..][j]) && x in AllNames(cs[1..][j]);
    assert cs[1..][j] == cs[j + 1];
  }

  /** The tree holds no title that is not a name in the command's hierarchy. */
  lemma {:induction false} LabelsWithinNames(cmd: Command, keep: Command -> bool)
    ensures TreeLabels(CmdToTree(cmd, keep)) <= AllNames(cmd)
    decreases cmd
  {
    forall x | x in LabelsBelow(Branches(cmd.children, keep))
      ensures x in NamesBelow(cmd.children)
    {
      LabelsBelowFromKept(cmd.children, keep, x);
      var j :| 0 <= j < |cmd.children| && keep(cmd.children[j]) && x in AllNames(cmd.children[j]);
      NameBelowOfChild(cmd.children, j, x);
    }
  }

  lemma {:induction false} NameBelowOfChild(cs: seq<Command>, j: nat, x: string)
    requires j < |cs| && x in AllNames(cs[j])
    ensures x in NamesBelow(cs)
  {
    if j > 0 {
      NameBelowOfChild(cs[1..], j - 1, x);
    }
  }

  /** A rejected subcommand is left out with its whole hierarchy, even the parts the filter would
      accept: when its names occur nowhere else, none of them is in the tree. */
  lemma RejectedSubtreeAbsent(cmd: Command, keep: Command -> bool, i: nat)
    requires i < |cmd.children| && !keep(cmd.children[i])
    requires cmd.name !in AllNames(cmd.children[i])
    requires forall j :: 0 <= j < |cmd.children| && j != i ==> AllNames(cmd.children[i]) !! AllNames(cmd.children[j])
    ensures AllNames(cmd.children[i]) !! TreeLabels(CmdToTree(cmd, keep))
  {
    forall x | x in AllNames(cmd.children[i])
      ensures x !in LabelsBelow(Branches(cmd.children, keep))
    {
      if x in LabelsBelow(Branches(cmd.children, keep)) {
        LabelsBelowFromKept(cmd.children, keep, x);
      }
    }
  }

  /** No title below the root names a command the filter rejects by name. */
  lemma {:induction false} RejectedNameAbsent(cs: seq<Command>, keep: Command -> bool, x: string)
    requires forall c :: keep(c) ==> c.name != x
    ensures x !in LabelsBelow(Branches(cs, keep))
    decreases cs
  {
    if cs != [] {
      var rest := Branches(cs[1..], keep);
      RejectedNameAbsent(cs[1..], keep, x);
      if keep(cs[0]) {
        var t := CmdToTree(cs[0], keep);
        assert Branches(cs, keep) == [t] + rest;
        assert ([t] + rest)[1..] == rest;
        RejectedNameAbsent(cs[0].children, keep, x);
      } else {
        assert Branches(cs, keep) == rest;
      }
    }
  }

  /** The filter of the `command-tree` command: available commands other than `completion`. */
  predicate TreeFilter(c: Command)
  {
    c.name != "completion" && Available(c)
  }

  /** The filter turns down `completion`, hidden commands (`command-tree` itself), deprecated
      commands and the help command, and accepts every other runnable command. */
  lemma TreeFilterDecides(c: Command)
    ensures c.name == "completion" || c.hidden || c.deprecated || c.isHelp ==> !TreeFilter(c)
    ensures c.name != "completion" && !c.hidden && !c.deprecated && !c.isHelp && c.runnable ==> TreeFilter(c)
  {
  }

  /** The printed tree never shows a `completion` branch. */
  lemma NoCompletionBranch(root: Command)
    ensures "completion" !in LabelsBelow(CmdToTree(root, TreeFilter).branches)
  {
    RejectedNameAbsent(root.children, TreeFilter, "completion");
  }
}
