/** The group filter of the Slack notification hook: an apply is announced
    only when at least one of its nodes is admitted by the comma-separated
    `allow_groups` option and not excluded by `deny_groups`. */
module NotifySlack {
  import opened Text

  /** A node, as far as the filter sees it: its name and the groups it is
      in (`node.in_group`). */
  datatype Node = Node(name: string, groups: set<string>)

  /** An `allow_groups` entry admits a node when it is blank after
      stripping or names, stripped, a group of the node. */
  predicate Allows(entry: string, n: Node) {
    Strip(entry) == [] || Strip(entry) in n.groups
  }

  predicate Admitted(allow: seq<string>, n: Node) {
    exists j :: 0 <= j < |allow| && Allows(allow[j], n)
  }

  /** `deny_groups` entries are compared as they are, without stripping. */
  predicate Denied(deny: seq<string>, n: Node) {
    exists j :: 0 <= j < |deny| && deny[j] in n.groups
  }

  /** The nodes that survive both passes. */
  ghost function Survivors(allow: seq<string>, deny: seq<string>, nodes: seq<Node>): set<Node> {
    set n | n in nodes && Admitted(allow, n) && !Denied(deny, n)
  }

  /** `_check_allowed_groups(config, nodes)` for the option values
      `allowGroups` and `denyGroups`: collect the admitted nodes, remove the
      denied ones, and report whether any is left. */
  method CheckAllowedGroups(allowGroups: string, denyGroups: string, nodes: seq<Node>) returns (r: bool)
    ensures r <==> exists i :: 0 <= i < |nodes| && Admitted(Split(allowGroups, ','), nodes[i])
                                && !Denied(Split(denyGroups, ','), nodes[i])
    ensures r <==> Survivors(Split(allowGroups, ','), Split(denyGroups, ','), nodes) != {}
  {
    var allow, deny := Split(allowGroups, ','), Split(denyGroups, ',');
    var allowed := AllowPass(allow, nodes);
    allowed := DenyPass(deny, nodes, allowed);
    assert allowed == Survivors(allow, deny, nodes);
    r := allowed != {};
    if r {
      var n :| n in allowed;
      assert n in nodes;
    }
  }

  /** The first loop: every node some `allow_groups` entry admits is added
      to the set. */
  method AllowPass(allow: seq<string>, nodes: seq<Node>) returns (allowed: set<Node>)
    ensures forall n :: n in allowed <==> n in nodes && Admitted(allow, n)
  {
    allowed := {};
    for i := 0 to |nodes|
      invariant forall n :: n in allowed <==> n in nodes[..i] && Admitted(allow, n)
    {
      for j := 0 to |allow|
        invariant forall n :: n in allowed <==>
                    (n in nodes[..i] && Admitted(allow, n)) || (n == nodes[i] && exists k :: 0 <= k < j && Allows(allow[k], n))
      {
        if Strip(allow[j]) == [] || Strip(allow[j]) in nodes[i].groups {
          allowed := allowed + {nodes[i]};
        }
      }
      assert nodes[..i + 1] == nodes[..i] + [nodes[i]];
    }
    assert nodes[..|nodes|] == nodes;
  }

  /** The second loop: every node in the set that is in some `deny_groups`
      entry is removed from it. */
  method DenyPass(deny: seq<string>, nodes: seq<Node>, admitted: set<Node>) returns (allowed: set<Node>)
    ensures forall n :: n in allowed <==> n in admitted && !(n in nodes && Denied(deny, n))
  {
    allowed := admitted;
    for i := 0 to |nodes|
      invariant forall n :: n in allowed <==> n in admitted && !(n in nodes[..i] && Denied(deny, n))
    {
      for j := 0 to |deny|
        invariant forall n :: n in allowed <==>
                    n in admitted && !(n in nodes[..i] && Denied(deny, n))
                    && !(n == nodes[i] && exists k :: 0 <= k < j && deny[k] in n.groups)
      {
        if deny[j] in nodes[i].groups && nodes[i] in allowed {
          allowed := allowed - {nodes[i]};
        }
      }
      assert nodes[..i + 1] == nodes[..i] + [nodes[i]];
    }
    assert nodes[..|nodes|] == nodes;
  }

  /** The filter depends only on which nodes are given, not on their order
      or repetitions. */
  lemma OrderIrrelevant(allow: seq<string>, deny: seq<string>, a: seq<Node>, b: seq<Node>)
    requires forall n :: n in a <==> n in b
    ensures Survivors(allow, deny, a) == Survivors(allow, deny, b)
  {
  }

  /** An `allow_groups` entry with spaces around a group name still admits
      the group's nodes, while the same entry in `deny_groups` excludes
      nobody. */
  lemma DenyIsNotStripped(n: Node)
    requires "web" in n.groups && " web" !in n.groups
    ensures Admitted([" web"], n)
    ensures !Denied([" web"], n)
    ensures Survivors([" web"], [" web"], [n]) == {n}
  {
    StripPadded(" ", "web", "");
    assert " web" == " " + "web" + "";
    assert Allows([" web"][0], n);
  }
}
