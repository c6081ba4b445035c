/**
  The outbound names nodes get in the kernel, and the way back from an outbound
  name to its node.
 */
module NodeNames {
  import opened Strings

  datatype Node = Node(id: string, name: string)

  const BALANCE_NODE_ID := "@balance"

  const RESERVED: set<string> := {"DIRECT", "REJECT", "PROXY", "GLOBAL", "Balance"}

  // ------------------------------------------------------------------ decimal numbers

  function Itoa(n: nat): (s: string)
    ensures s != []
  {
    if n < 10 then [Digit(n)] else Itoa(n / 10) + [Digit(n % 10)]
  }

  function Digit(d: nat): char
    requires d < 10
  {
    '0' + d as char
  }

  /** The number a string of digits spells. */
  function Atoi(s: string): int {
    if s == [] then 0 else 10 * Atoi(s[..|s| - 1]) + (s[|s| - 1] as int - '0' as int)
  }

  lemma {:induction false} AtoiOfItoa(n: nat)
    ensures Atoi(Itoa(n)) == n
  {
    if n < 10 {
      assert Itoa(n)[..0] == [];
    } else {
      AtoiOfItoa(n / 10);
      assert Itoa(n)[..|Itoa(n)| - 1] == Itoa(n / 10);
    }
  }

  /** The name a node would like to have. */
  function Wanted(n: Node): string {
    var name := TrimSpace(n.name);
    if name == "" then n.id else name
  }

  // ------------------------------------------------------------------ one name

  /** The k-th name tried for base: base itself, then base#2, base#3 and so on. */
  function Candidate(base: string, k: nat): string
    requires k >= 1
  {
    if k == 1 then base else base + "#" + Itoa(k)
  }

  lemma CandidatesDiffer(base: string, j: nat, k: nat)
    requires 1 <= j < k
    ensures Candidate(base, j) != Candidate(base, k)
  {
    AtoiOfItoa(j);
    AtoiOfItoa(k);
    var prefix := base + "#";
    assert Candidate(base, k)[|prefix|..] == Itoa(k);
    if j == 1 {
      assert |Candidate(base, k)| > |base|;
    } else {
      assert Candidate(base, j)[|prefix|..] == Itoa(j);
    }
  }

  /** k is the first candidate not yet taken. */
  ghost predicate FirstFree(base: string, taken: set<string>, k: nat) {
    && k >= 1
    && Candidate(base, k) !in taken
    && forall j :: 1 <= j < k ==> Candidate(base, j) in taken
  }

  /** Everything tried before candidate k. */
  ghost function Tried(base: string, k: nat): set<string>
    requires k >= 1
  {
    if k == 1 then {} else Tried(base, k - 1) + {Candidate(base, k - 1)}
  }

  /** Pigeonhole: k - 1 different names have been tried before candidate k. */
  lemma {:induction false} TriedCount(base: string, k: nat)
    requires k >= 1
    ensures |Tried(base, k)| == k - 1
    ensures forall s :: s in Tried(base, k) <==> exists j :: 1 <= j < k && s == Candidate(base, j)
  {
    if k > 1 {
      TriedCount(base, k - 1);
      forall j | 1 <= j < k - 1 ensures Candidate(base, j) != Candidate(base, k - 1) {
        CandidatesDiffer(base, j, k - 1);
      }
    }
  }

  lemma TriedAllTaken(base: string, taken: set<string>, k: nat)
    requires k >= 1 && forall j :: 1 <= j < k ==> Candidate(base, j) in taken
    ensures k - 1 <= |taken|
  {
    TriedCount(base, k);
    assert Tried(base, k) <= taken;
    SmallerSubset(Tried(base, k), taken);
  }

  lemma SmallerSubset(a: set<string>, b: set<string>)
    requires a <= b
    ensures |a| <= |b|
  {
    assert |b| == |a| + |b - a| by { assert b == a + (b - a); }
  }

  /** The renaming loop: it takes the first free candidate, within one step per taken name. */
  method UniqueName(base: string, taken: set<string>) returns (unique: string)
    ensures exists k: nat :: 1 <= k <= |taken| + 1 && FirstFree(base, taken, k) && unique == Candidate(base, k)
  {
    unique := base;
    ghost var k := 1;
    var i := 2;
    while unique in taken
      invariant i >= 2 && k == i - 1 && unique == Candidate(base, k)
      invariant forall j :: 1 <= j < k ==> Candidate(base, j) in taken
      decreases |taken| + 2 - i
    {
      TriedAllTaken(base, taken, i);
      unique := base + "#" + Itoa(i);
      i := i + 1;
      k := k + 1;
    }
    TriedAllTaken(base, taken, k);
  }

  // ------------------------------------------------------------------ all names

  ghost function TakenBy(names: seq<string>): set<string> { RESERVED + (set s | s in names) }

  /**
    Node i is called names[i]: the first candidate free among the reserved names and
    the names of the nodes before it.
   */
  ghost predicate Named(nodes: seq<Node>, names: seq<string>) {
    && |names| == |nodes|
    && forall i :: 0 <= i < |nodes| ==> GetsFirstFree(Wanted(nodes[i]), TakenBy(names[..i]), names[i])
  }

  ghost predicate GetsFirstFree(base: string, taken: set<string>, name: string) {
    exists k: nat :: FirstFree(base, taken, k) && name == Candidate(base, k)
  }

  ghost predicate NoReserved(names: seq<string>) { forall i :: 0 <= i < |names| ==> names[i] !in RESERVED }

  ghost predicate AllDifferent(names: seq<string>) { forall i, j :: 0 <= i < j < |names| ==> names[i] != names[j] }

  /** The map of the names: an ID listed more than once has the last of its names. */
  ghost predicate Tabulates(out: map<string, string>, nodes: seq<Node>, names: seq<string>)
    requires |names| == |nodes|
  {
    && (forall i :: 0 <= i < |nodes| ==> nodes[i].id in out)
    && (forall id :: id in out ==> exists i: nat :: LastOf(nodes, id, i) && out[id] == names[i])
  }

  ghost predicate LastOf(nodes: seq<Node>, id: string, i: nat) {
    i < |nodes| && nodes[i].id == id && forall j :: i < j < |nodes| ==> nodes[j].id != id
  }

  /** The table that comes of naming the nodes in order. */
  ghost predicate NamesOf(nodes: seq<Node>, out: map<string, string>) {
    exists names :: Named(nodes, names) && Tabulates(out, nodes, names)
  }

  method NodeProxyNames(nodes: seq<Node>) returns (out: map<string, string>)
    ensures NamesOf(nodes, out) && Clean(out)
  {
    hide FirstFree, Candidate, TakenBy, Wanted, Named, Tabulates, GetsFirstFree;
    NothingNamed();
    var taken := RESERVED;
    out := map[];
    ghost var names: seq<string> := [];
    for i := 0 to |nodes|
      invariant |names| == i
      invariant taken == TakenBy(names)
      invariant Named(nodes[..i], names)
      invariant Tabulates(out, nodes[..i], names)
    {
      var unique := UniqueName(Wanted(nodes[i]), taken);
      ghost var k: nat :| k >= 1 && FirstFree(Wanted(nodes[i]), taken, k) && unique == Candidate(Wanted(nodes[i]), k);
      ghost var before := out;
      taken := taken + {unique};
      out := out[nodes[i].id := unique];
      ghost var was := names;
      names := names + [unique];
      OneMoreNamed(nodes[..i], was, nodes[i], unique, k);
      OneMoreTabulated(nodes[..i], was, nodes[i], unique, before);
      assert nodes[..i + 1] == nodes[..i] + [nodes[i]];
    }
    assert nodes[..|nodes|] == nodes;
    TableIsClean(nodes, names, out);
  }

  lemma NothingNamed()
    ensures TakenBy([]) == RESERVED && Named([], []) && Tabulates(map[], [], [])
  {
  }

  lemma OneMoreNamed(nodes: seq<Node>, names: seq<string>, n: Node, name: string, k: nat)
    requires Named(nodes, names)
    requires FirstFree(Wanted(n), TakenBy(names), k) && name == Candidate(Wanted(n), k)
    ensures Named(nodes + [n], names + [name])
    ensures TakenBy(names + [name]) == TakenBy(names) + {name}
  {
    assert GetsFirstFree(Wanted(n), TakenBy(names), name);
    hide FirstFree, Candidate, Wanted, GetsFirstFree;
    forall i | 0 <= i < |nodes| + 1
      ensures GetsFirstFree(Wanted((nodes + [n])[i]), TakenBy((names + [name])[..i]), (names + [name])[i])
    {
      assert (names + [name])[..i] == if i < |names| then names[..i] else names;
    }
  }

  lemma OneMoreTabulated(nodes: seq<Node>, names: seq<string>, n: Node, name: string, before: map<string, string>)
    requires |names| == |nodes| && Tabulates(before, nodes, names)
    ensures Tabulates(before[n.id := name], nodes + [n], names + [name])
  {
    var out := before[n.id := name];
    forall id | id in out ensures exists i: nat :: LastOf(nodes + [n], id, i) && out[id] == (names + [name])[i] {
      if id == n.id {
        assert LastOf(nodes + [n], id, |nodes|);
      } else {
        var i: nat :| LastOf(nodes, id, i) && before[id] == names[i];
        assert LastOf(nodes + [n], id, i);
      }
    }
  }

  /** No two nodes share a name, and none has a reserved one. */
  lemma NamesAreUnique(nodes: seq<Node>, names: seq<string>)
    requires Named(nodes, names)
    ensures AllDifferent(names) && NoReserved(names)
  {
    forall j | 0 <= j < |names| ensures names[j] !in TakenBy(names[..j]) {
      assert GetsFirstFree(Wanted(nodes[j]), TakenBy(names[..j]), names[j]);
    }
    forall i, j | 0 <= i < j < |names| ensures names[i] != names[j] {
      assert names[..j][i] == names[i];
    }
  }

  /** A table that gives different IDs different names, none of them reserved. */
  ghost predicate Clean(out: map<string, string>) {
    && (forall a, b :: a in out && b in out && out[a] == out[b] ==> a == b)
    && (forall a :: a in out ==> out[a] !in RESERVED)
  }

  /** Whatever the nodes, repeated IDs included, their table is clean. */
  lemma TableIsClean(nodes: seq<Node>, names: seq<string>, out: map<string, string>)
    requires Named(nodes, names) && Tabulates(out, nodes, names)
    ensures Clean(out)
  {
    NamesAreUnique(nodes, names);
    forall a, b | a in out && b in out && out[a] == out[b] ensures a == b {
      var i: nat :| LastOf(nodes, a, i) && out[a] == names[i];
      var j: nat :| LastOf(nodes, b, j) && out[b] == names[j];
      assert i == j;
    }
    forall a | a in out ensures out[a] !in RESERVED {
      var i: nat :| LastOf(nodes, a, i) && out[a] == names[i];
    }
  }

  lemma FirstFreeIsUnique(base: string, taken: set<string>, x: string, y: string)
    requires GetsFirstFree(base, taken, x) && GetsFirstFree(base, taken, y)
    ensures x == y
  {
    hide Candidate;
    var j: nat :| FirstFree(base, taken, j) && x == Candidate(base, j);
    var k: nat :| FirstFree(base, taken, k) && y == Candidate(base, k);
    assert !(j < k) && !(k < j);
  }

  lemma OneTable(nodes: seq<Node>, names: seq<string>, x: map<string, string>, y: map<string, string>)
    requires |names| == |nodes| && Tabulates(x, nodes, names) && Tabulates(y, nodes, names)
    ensures x == y
  {
    forall id | id in x ensures id in y && x[id] == y[id] {
      var i: nat :| LastOf(nodes, id, i) && x[id] == names[i];
      assert nodes[i].id in y;
      var j: nat :| LastOf(nodes, id, j) && y[id] == names[j];
      assert i == j;
    }
    forall id | id in y ensures id in x {
      var j: nat :| LastOf(nodes, id, j) && y[id] == names[j];
    }
  }

  /** The naming leaves no choice: two tables for the same nodes are the same. */
  lemma TableIsDetermined(nodes: seq<Node>, x: map<string, string>, y: map<string, string>)
    requires NamesOf(nodes, x) && NamesOf(nodes, y)
    ensures x == y
  {
    hide Tabulates, GetsFirstFree, TakenBy, Wanted;
    var a :| Named(nodes, a) && Tabulates(x, nodes, a);
    var b :| Named(nodes, b) && Tabulates(y, nodes, b);
    NamingIsDetermined(nodes, a, b, |nodes|);
    assert a[..|nodes|] == a && b[..|nodes|] == b;
    OneTable(nodes, a, x, y);
  }

  lemma {:induction false} NamingIsDetermined(nodes: seq<Node>, a: seq<string>, b: seq<string>, n: nat)
    requires Named(nodes, a) && Named(nodes, b) && n <= |nodes|
    ensures a[..n] == b[..n]
  {
    hide GetsFirstFree, TakenBy, Wanted;
    if n > 0 {
      NamingIsDetermined(nodes, a, b, n - 1);
      var i := n - 1;
      FirstFreeIsUnique(Wanted(nodes[i]), TakenBy(a[..i]), a[i], b[i]);
      assert a[..n] == a[..i] + [a[i]] && b[..n] == b[..i] + [b[i]];
    }
  }

  // ------------------------------------------------------------------ there and back

  /** The node an outbound name stands for; the table is searched in any order. */
  method NodeIDForOutbound(name: string, names: map<string, string>) returns (id: string)
    ensures Stands(name, names, id)
  {
    if name == "" { return ""; }
    if name == "Balance" { return BALANCE_NODE_ID; }
    var left := names.Keys;
    while left != {}
      invariant left <= names.Keys
      invariant forall a :: a in names && a !in left ==> names[a] != name
      decreases |left|
    {
      var a :| a in left;
      if names[a] == name { return a; }
      left := left - {a};
    }
    return "";
  }

  ghost predicate Stands(name: string, names: map<string, string>, id: string) {
    if name == "" then id == ""
    else if name == "Balance" then id == BALANCE_NODE_ID
    else if name in names.Values then id in names && names[id] == name
    else id == ""
  }

  datatype Selection = Select(name: string) | Unknown

  /** The outbound that selecting a node asks for. */
  function Selected(nodeID: string, names: map<string, string>): Selection {
    var name :=
      if nodeID == BALANCE_NODE_ID then "Balance"
      else if nodeID in names then names[nodeID]
      else "";
    if name == "" then Unknown else Select(name)
  }

  /** Reading inverts naming: whatever the nodes, a node's name leads back to that node. */
  lemma OutboundInvertsNaming(nodes: seq<Node>, out: map<string, string>, id: string, found: string)
    requires NamesOf(nodes, out) && id in out && Stands(out[id], out, found)
    ensures found == id
  {
    var names :| Named(nodes, names) && Tabulates(out, nodes, names);
    TableIsClean(nodes, names, out);
    CleanTableInverts(out, id, found);
    var i: nat :| LastOf(nodes, id, i) && out[id] == names[i];
    assert GetsFirstFree(Wanted(nodes[i]), TakenBy(names[..i]), names[i]);
    NamelessIsIdless(nodes[i], TakenBy(names[..i]), names[i]);
  }

  /** Only a node without an ID can end up without a name. */
  lemma NamelessIsIdless(n: Node, taken: set<string>, name: string)
    requires GetsFirstFree(Wanted(n), taken, name)
    ensures name == "" ==> n.id == ""
  {
    var k: nat :| k >= 1 && FirstFree(Wanted(n), taken, k) && name == Candidate(Wanted(n), k);
    assert k > 1 ==> |name| > 0;
  }

  /** The name a clean table gives to an ID leads back to it, exactly if there is such a name or no such ID. */
  lemma CleanTableInverts(names: map<string, string>, id: string, found: string)
    requires Clean(names) && id in names && Stands(names[id], names, found)
    ensures found == id <==> names[id] != "" || id == ""
  {
    assert names[id] != "Balance";
    assert names[id] in names.Values;
  }

  /** What was selected is what is read back. */
  lemma SelectionReadsBack(names: map<string, string>, id: string, found: string)
    requires Clean(names) && Selected(id, names).Select?
    requires Stands(Selected(id, names).name, names, found)
    ensures found == id
  {
    if id != BALANCE_NODE_ID {
      CleanTableInverts(names, id, found);
    }
  }

  /** What was read is what selecting it asks for, unless a node bears the ID of the balance group. */
  lemma ReadingSelectsSame(names: map<string, string>, name: string, id: string)
    requires Clean(names) && Stands(name, names, id)
    ensures Selected(id, names) == Select(name) <==>
      name == "Balance" || (name != "" && name in names.Values && id != BALANCE_NODE_ID)
  {
    assert name in names.Values ==> exists a :: a in names && names[a] == name;
  }

  /** The failing case: a node that bears the ID of the balance group is read as its ID and selected as the group. */
  lemma NodeWithGroupIDIsNotSelected(nodes: seq<Node>, out: map<string, string>, found: string)
    requires NamesOf(nodes, out) && BALANCE_NODE_ID in out && Stands(out[BALANCE_NODE_ID], out, found)
    ensures found == BALANCE_NODE_ID && Selected(found, out) != Select(out[BALANCE_NODE_ID])
  {
    OutboundInvertsNaming(nodes, out, BALANCE_NODE_ID, found);
    var names :| Named(nodes, names) && Tabulates(out, nodes, names);
    TableIsClean(nodes, names, out);
    assert "Balance" in RESERVED;
  }

  // ------------------------------------------------------------------ which name a node gets

  /** A node keeps its trimmed name if that is not reserved and no earlier node has it. */
  lemma FreeNameIsKept(nodes: seq<Node>, names: seq<string>, i: nat)
    requires Named(nodes, names) && i < |nodes|
    requires TrimSpace(nodes[i].name) != "" && TrimSpace(nodes[i].name) !in names[..i]
    requires TrimSpace(nodes[i].name) !in {"DIRECT", "REJECT", "PROXY", "GLOBAL", "Balance"}
    ensures names[i] == TrimSpace(nodes[i].name)
  {
    FirstIsFree(TrimSpace(nodes[i].name), names, i);
    FirstFreeIsUnique(Wanted(nodes[i]), TakenBy(names[..i]), names[i], TrimSpace(nodes[i].name));
  }

  /** A node without a name is called by its ID, if that is free. */
  lemma NamelessNodeHasItsID(nodes: seq<Node>, names: seq<string>, i: nat)
    requires Named(nodes, names) && i < |nodes|
    requires TrimSpace(nodes[i].name) == "" && nodes[i].id !in names[..i]
    requires nodes[i].id !in {"DIRECT", "REJECT", "PROXY", "GLOBAL", "Balance"}
    ensures names[i] == nodes[i].id
  {
    FirstIsFree(nodes[i].id, names, i);
    FirstFreeIsUnique(Wanted(nodes[i]), TakenBy(names[..i]), names[i], nodes[i].id);
  }

  lemma FirstIsFree(name: string, names: seq<string>, i: nat)
    requires i <= |names| && name !in names[..i] && name !in {"DIRECT", "REJECT", "PROXY", "GLOBAL", "Balance"}
    ensures GetsFirstFree(name, TakenBy(names[..i]), name)
  {
    assert FirstFree(name, TakenBy(names[..i]), 1) && Candidate(name, 1) == name;
  }

  /** A name that is taken or reserved gets the suffix #2, if that is free. */
  lemma TakenNameIsNumbered(nodes: seq<Node>, names: seq<string>, i: nat)
    requires Named(nodes, names) && i < |nodes| && TrimSpace(nodes[i].name) != ""
    requires TrimSpace(nodes[i].name) in names[..i] ||
      TrimSpace(nodes[i].name) in {"DIRECT", "REJECT", "PROXY", "GLOBAL", "Balance"}
    requires TrimSpace(nodes[i].name) + "#2" !in names[..i]
    ensures names[i] == TrimSpace(nodes[i].name) + "#2"
  {
    var base, taken := TrimSpace(nodes[i].name), TakenBy(names[..i]);
    NumberedTwo(base);
    assert base in taken && base + "#2" !in taken;
    forall j: nat | 1 <= j < 2 ensures Candidate(base, j) in taken {
      assert j == 1;
    }
    assert FirstFree(base, taken, 2);
    FirstFreeIsUnique(base, taken, names[i], base + "#2");
  }

  lemma NumberedTwo(base: string)
    ensures Candidate(base, 1) == base && Candidate(base, 2) == base + "#2"
    ensures base + "#2" !in RESERVED
  {
    assert Itoa(2) == "2";
    assert Candidate(base, 2) == base + "#" + "2";
    var name := base + "#2";
    assert name[|name| - 1] == '2';
  }

  /** No node is ever called like a group. */
  lemma NoGroupNames(nodes: seq<Node>, names: seq<string>, i: nat)
    requires Named(nodes, names) && i < |nodes|
    ensures names[i] !in {"DIRECT", "REJECT", "PROXY", "GLOBAL", "Balance"}
  {
    NamesAreUnique(nodes, names);
  }

  /** Two nodes called HKG, one called like a group, and one without a name. */
  lemma NamesOfFour(names: seq<string>)
    requires Named([Node("a", "HKG"), Node("b", "HKG"), Node("c", "PROXY"), Node("d", "")], names)
    ensures names == ["HKG", "HKG#2", "PROXY#2", "d"]
  {
    var nodes := [Node("a", "HKG"), Node("b", "HKG"), Node("c", "PROXY"), Node("d", "")];
    PlainNames();
    assert "HKG" + "#2" == "HKG#2" && "PROXY" + "#2" == "PROXY#2";
    FreeNameIsKept(nodes, names, 0);
    assert names[..1] == ["HKG"];
    TakenNameIsNumbered(nodes, names, 1);
    assert names[..2] == ["HKG", "HKG#2"];
    TakenNameIsNumbered(nodes, names, 2);
    assert names[..3] == ["HKG", "HKG#2", "PROXY#2"];
    NamelessNodeHasItsID(nodes, names, 3);
  }

  lemma PlainNames()
    ensures TrimSpace("HKG") == "HKG" && TrimSpace("PROXY") == "PROXY" && TrimSpace("") == ""
  {
    assert TrimLeft("HKG", IsSpace) == "HKG" && TrimRight("HKG", IsSpace) == "HKG";
    assert TrimLeft("PROXY", IsSpace) == "PROXY" && TrimRight("PROXY", IsSpace) == "PROXY";
  }
}
