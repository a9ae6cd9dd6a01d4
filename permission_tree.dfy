/**
 * The three-level permission tree of a role (Module > SubModule > ChildModule)
 * as edited in the permissions page: the records the backend sends, the edit
 * tree built from them, the toggle propagation rules, the permission count,
 * the create/update payloads and the role search.
 */
module PermissionTree {
  import opened Options
  import opened Text

  // ---------------------------------------------------------------------------
  // Backend records. `_id` and the nested `subModules` arrays may be absent.
  // ---------------------------------------------------------------------------

  datatype ChildRecord = ChildRecord(id: Option<string>, name: string, allowed: bool)

  datatype SubModuleRecord =
    SubModuleRecord(id: Option<string>, name: string, allowed: bool, subModules: Option<seq<ChildRecord>>)

  datatype ModuleRecord =
    ModuleRecord(id: Option<string>, name: string, allowed: bool, subModules: Option<seq<SubModuleRecord>>)

  /** A row of the roles table. */
  datatype RoleRecord = RoleRecord(id: string, role: string, modules: Option<seq<ModuleRecord>>)

  // ---------------------------------------------------------------------------
  // The edit tree held by the form. A sub-module's own `subModules` array (its
  // child modules) is called `children` here.
  // ---------------------------------------------------------------------------

  datatype ChildNode = ChildNode(id: string, name: string, allowed: bool)

  datatype SubModuleNode = SubModuleNode(id: string, name: string, allowed: bool, children: seq<ChildNode>)

  datatype ModuleNode = ModuleNode(id: string, name: string, allowed: bool, subModules: seq<SubModuleNode>)

  /** The value of the role form: `_id`, `role` and the module tree. */
  datatype RoleForm = RoleForm(id: string, role: string, modules: seq<ModuleNode>)

  function OrEmpty<T>(xs: Option<seq<T>>): seq<T> {
    xs.GetOr([])
  }

  // ---------------------------------------------------------------------------
  // Shape: everything but the `allowed` flags.
  // ---------------------------------------------------------------------------

  predicate SameChildShape(a: ChildNode, b: ChildNode) {
    a.id == b.id && a.name == b.name
  }

  predicate SameSubModuleShape(a: SubModuleNode, b: SubModuleNode) {
    && a.id == b.id && a.name == b.name
    && |a.children| == |b.children|
    && forall k | 0 <= k < |a.children| :: SameChildShape(a.children[k], b.children[k])
  }

  predicate SameModuleShape(a: ModuleNode, b: ModuleNode) {
    && a.id == b.id && a.name == b.name
    && |a.subModules| == |b.subModules|
    && forall j | 0 <= j < |a.subModules| :: SameSubModuleShape(a.subModules[j], b.subModules[j])
  }

  predicate ChildrenAllSetTo(cs: seq<ChildNode>, b: bool) {
    forall k | 0 <= k < |cs| :: cs[k].allowed == b
  }

  /** A sub-module and all of its children carry the flag `b`. */
  predicate SubModuleAllSetTo(s: SubModuleNode, b: bool) {
    s.allowed == b && ChildrenAllSetTo(s.children, b)
  }

  // ---------------------------------------------------------------------------
  // `.every(... allowed)`: true for an empty array.
  // ---------------------------------------------------------------------------

  function EveryChildAllowed(cs: seq<ChildNode>): (r: bool)
    ensures r <==> forall k | 0 <= k < |cs| :: cs[k].allowed
  {
    |cs| == 0 || (cs[0].allowed && EveryChildAllowed(cs[1..]))
  }

  function EverySubModuleAllowed(ss: seq<SubModuleNode>): (r: bool)
    ensures r <==> forall j | 0 <= j < |ss| :: ss[j].allowed
  {
    |ss| == 0 || (ss[0].allowed && EverySubModuleAllowed(ss[1..]))
  }

  // ---------------------------------------------------------------------------
  // Downward cascade (toggleAllChildren, toggleAllSubModules).
  // ---------------------------------------------------------------------------

  /** Every child set to `b`; ids and names kept. */
  function CascadeChildren(cs: seq<ChildNode>, b: bool): (r: seq<ChildNode>)
    ensures |r| == |cs| && ChildrenAllSetTo(r, b)
    ensures forall k | 0 <= k < |cs| :: SameChildShape(r[k], cs[k])
  {
    seq(|cs|, k requires 0 <= k < |cs| => cs[k].(allowed := b))
  }

  /** A sub-module and all its children set to `b`; shape kept. */
  function CascadeSubModule(s: SubModuleNode, b: bool): (r: SubModuleNode)
    ensures SubModuleAllSetTo(r, b) && SameSubModuleShape(r, s)
  {
    s.(allowed := b, children := CascadeChildren(s.children, b))
  }

  /** Every sub-module and every child below them set to `b`; shape kept. */
  function CascadeSubModules(ss: seq<SubModuleNode>, b: bool): (r: seq<SubModuleNode>)
    ensures |r| == |ss|
    ensures forall j | 0 <= j < |ss| :: SubModuleAllSetTo(r[j], b) && SameSubModuleShape(r[j], ss[j])
  {
    seq(|ss|, j requires 0 <= j < |ss| => CascadeSubModule(ss[j], b))
  }

  // ---------------------------------------------------------------------------
  // The three toggle handlers, as functions of the tree. Each is called by the
  // template after the checkbox has already written the node's new flag.
  // ---------------------------------------------------------------------------

  /**
   * onModuleToggle(i): module i's flag is pushed down to every sub-module and
   * child below it; the module itself and every other module are unchanged.
   */
  function ModuleToggled(ms: seq<ModuleNode>, i: nat): (r: seq<ModuleNode>)
    requires i < |ms|
    ensures |r| == |ms|
    ensures forall i' | 0 <= i' < |ms| && i' != i :: r[i'] == ms[i']
    ensures r[i].allowed == ms[i].allowed && SameModuleShape(r[i], ms[i])
    ensures forall j | 0 <= j < |r[i].subModules| :: SubModuleAllSetTo(r[i].subModules[j], ms[i].allowed)
  {
    ms[i := ms[i].(subModules := CascadeSubModules(ms[i].subModules, ms[i].allowed))]
  }

  /**
   * onSubModuleToggle(i, j): sub-module j's flag is pushed down to its children,
   * then module i becomes the AND of its sub-modules. Sibling sub-modules and
   * other modules are unchanged.
   */
  function SubModuleToggled(ms: seq<ModuleNode>, i: nat, j: nat): (r: seq<ModuleNode>)
    requires i < |ms| && j < |ms[i].subModules|
    ensures |r| == |ms|
    ensures forall i' | 0 <= i' < |ms| && i' != i :: r[i'] == ms[i']
    ensures SameModuleShape(r[i], ms[i])
    ensures forall j' | 0 <= j' < |ms[i].subModules| && j' != j :: r[i].subModules[j'] == ms[i].subModules[j']
    ensures SubModuleAllSetTo(r[i].subModules[j], ms[i].subModules[j].allowed)
    ensures r[i].allowed <==> forall j' | 0 <= j' < |r[i].subModules| :: r[i].subModules[j'].allowed
  {
    var m := ms[i];
    var s := m.subModules[j];
    var subs := m.subModules[j := s.(children := CascadeChildren(s.children, s.allowed))];
    ms[i := m.(allowed := EverySubModuleAllowed(subs), subModules := subs)]
  }

  /**
   * onChildToggle(i, j, k): sub-module j becomes the AND of its children (true
   * when it has none), then module i the AND of its sub-modules. No child flag
   * changes; the child index is not used.
   */
  function ChildToggled(ms: seq<ModuleNode>, i: nat, j: nat, k: int): (r: seq<ModuleNode>)
    requires i < |ms| && j < |ms[i].subModules|
    ensures |r| == |ms|
    ensures forall i' | 0 <= i' < |ms| && i' != i :: r[i'] == ms[i']
    ensures SameModuleShape(r[i], ms[i])
    ensures forall j' | 0 <= j' < |ms[i].subModules| && j' != j :: r[i].subModules[j'] == ms[i].subModules[j']
    ensures r[i].subModules[j].children == ms[i].subModules[j].children
    ensures r[i].subModules[j].allowed <==>
              forall k' | 0 <= k' < |ms[i].subModules[j].children| :: ms[i].subModules[j].children[k'].allowed
    ensures r[i].allowed <==> forall j' | 0 <= j' < |r[i].subModules| :: r[i].subModules[j'].allowed
  {
    var m := ms[i];
    var s := m.subModules[j];
    var subs := m.subModules[j := s.(allowed := EveryChildAllowed(s.children))];
    ms[i := m.(allowed := EverySubModuleAllowed(subs), subModules := subs)]
  }

  // ---------------------------------------------------------------------------
  // Consistency: a node that has children is allowed exactly when all of them are.
  // ---------------------------------------------------------------------------

  predicate SubModuleConsistent(s: SubModuleNode) {
    |s.children| > 0 ==> (s.allowed <==> forall k | 0 <= k < |s.children| :: s.children[k].allowed)
  }

  predicate ModuleConsistent(m: ModuleNode) {
    && (|m.subModules| > 0 ==> (m.allowed <==> forall j | 0 <= j < |m.subModules| :: m.subModules[j].allowed))
    && forall j | 0 <= j < |m.subModules| :: SubModuleConsistent(m.subModules[j])
  }

  predicate Consistent(ms: seq<ModuleNode>) {
    forall i | 0 <= i < |ms| :: ModuleConsistent(ms[i])
  }

  /** Every other module consistent, and within module i every sub-module but j. */
  predicate ConsistentOutside(ms: seq<ModuleNode>, i: nat, j: nat)
    requires i < |ms|
  {
    && (forall i' | 0 <= i' < |ms| && i' != i :: ModuleConsistent(ms[i']))
    && (forall j' | 0 <= j' < |ms[i].subModules| && j' != j :: SubModuleConsistent(ms[i].subModules[j']))
  }

  /**
   * Whatever the click did to module i, onModuleToggle(i) leaves the whole tree
   * consistent provided the other modules were.
   */
  lemma ModuleToggleRestoresConsistency(ms: seq<ModuleNode>, i: nat)
    requires i < |ms|
    requires forall i' | 0 <= i' < |ms| && i' != i :: ModuleConsistent(ms[i'])
    ensures Consistent(ModuleToggled(ms, i))
  {
    var r := ModuleToggled(ms, i);
    var subs := r[i].subModules;
    forall j | 0 <= j < |subs| ensures SubModuleConsistent(subs[j]) {
      assert SubModuleAllSetTo(subs[j], ms[i].allowed);
      if |subs[j].children| > 0 {
        assert subs[j].children[0].allowed == ms[i].allowed;
      }
    }
    if |subs| > 0 {
      assert SubModuleAllSetTo(subs[0], ms[i].allowed);
    }
    assert ModuleConsistent(r[i]);
  }

  /**
   * Whatever the click did to sub-module j of module i, onSubModuleToggle(i, j)
   * leaves the whole tree consistent provided everything outside j was.
   */
  lemma SubModuleToggleRestoresConsistency(ms: seq<ModuleNode>, i: nat, j: nat)
    requires i < |ms| && j < |ms[i].subModules|
    requires ConsistentOutside(ms, i, j)
    ensures Consistent(SubModuleToggled(ms, i, j))
  {
    var r := SubModuleToggled(ms, i, j);
    var subs := r[i].subModules;
    forall j' | 0 <= j' < |subs| ensures SubModuleConsistent(subs[j']) {
      if j' == j {
        assert SubModuleAllSetTo(subs[j], ms[i].subModules[j].allowed);
        if |subs[j].children| > 0 {
          assert subs[j].children[0].allowed == ms[i].subModules[j].allowed;
        }
      } else {
        assert subs[j'] == ms[i].subModules[j'];
      }
    }
    assert ModuleConsistent(r[i]);
  }

  /**
   * Whatever the click did to a child of sub-module j of module i,
   * onChildToggle(i, j, k) leaves the whole tree consistent provided everything
   * outside sub-module j was.
   */
  lemma ChildToggleRestoresConsistency(ms: seq<ModuleNode>, i: nat, j: nat, k: int)
    requires i < |ms| && j < |ms[i].subModules|
    requires ConsistentOutside(ms, i, j)
    ensures Consistent(ChildToggled(ms, i, j, k))
  {
    var r := ChildToggled(ms, i, j, k);
    var subs := r[i].subModules;
    forall j' | 0 <= j' < |subs| ensures SubModuleConsistent(subs[j']) {
      if j' != j {
        assert subs[j'] == ms[i].subModules[j'];
      }
    }
    assert ModuleConsistent(r[i]);
  }

  // ---------------------------------------------------------------------------
  // Idempotence: the handlers read only the current tree.
  // ---------------------------------------------------------------------------

  lemma CascadeChildrenIdempotent(cs: seq<ChildNode>, b: bool)
    ensures CascadeChildren(CascadeChildren(cs, b), b) == CascadeChildren(cs, b)
  {
  }

  lemma ModuleToggleIdempotent(ms: seq<ModuleNode>, i: nat)
    requires i < |ms|
    ensures ModuleToggled(ModuleToggled(ms, i), i) == ModuleToggled(ms, i)
  {
    var once := ModuleToggled(ms, i);
    var b := ms[i].allowed;
    var subs := once[i].subModules;
    var again := CascadeSubModules(subs, b);
    forall j | 0 <= j < |subs| ensures again[j] == subs[j] {
      CascadeChildrenIdempotent(ms[i].subModules[j].children, b);
    }
    assert again == subs;
  }

  lemma SubModuleToggleIdempotent(ms: seq<ModuleNode>, i: nat, j: nat)
    requires i < |ms| && j < |ms[i].subModules|
    ensures SubModuleToggled(SubModuleToggled(ms, i, j), i, j) == SubModuleToggled(ms, i, j)
  {
    var s := ms[i].subModules[j];
    CascadeChildrenIdempotent(s.children, s.allowed);
    var once := SubModuleToggled(ms, i, j);
    assert once[i].subModules[j] == s.(children := CascadeChildren(s.children, s.allowed));
    assert once[i].subModules[j := once[i].subModules[j]] == once[i].subModules;
  }

  lemma ChildToggleIdempotent(ms: seq<ModuleNode>, i: nat, j: nat, k: int)
    requires i < |ms| && j < |ms[i].subModules|
    ensures ChildToggled(ChildToggled(ms, i, j, k), i, j, k) == ChildToggled(ms, i, j, k)
  {
    var once := ChildToggled(ms, i, j, k);
    assert once[i].subModules[j := once[i].subModules[j]] == once[i].subModules;
  }

  // ---------------------------------------------------------------------------
  // calculatePermissionCount: one for each allowed node at each level.
  // The sums run over prefixes so that a left-to-right loop can follow them.
  // ---------------------------------------------------------------------------

  function Flag(b: bool): nat {
    if b then 1 else 0
  }

  function ChildrenAllowedCount(cs: seq<ChildRecord>): (n: nat)
    ensures n <= |cs|
  {
    if cs == [] then 0 else ChildrenAllowedCount(cs[..|cs| - 1]) + Flag(cs[|cs| - 1].allowed)
  }

  function SubModuleAllowedCount(s: SubModuleRecord): nat {
    Flag(s.allowed) + ChildrenAllowedCount(OrEmpty(s.subModules))
  }

  function SubModulesAllowedCount(ss: seq<SubModuleRecord>): nat {
    if ss == [] then 0 else SubModulesAllowedCount(ss[..|ss| - 1]) + SubModuleAllowedCount(ss[|ss| - 1])
  }

  function ModuleAllowedCount(m: ModuleRecord): nat {
    Flag(m.allowed) + SubModulesAllowedCount(OrEmpty(m.subModules))
  }

  function ModulesAllowedCount(ms: seq<ModuleRecord>): nat {
    if ms == [] then 0 else ModulesAllowedCount(ms[..|ms| - 1]) + ModuleAllowedCount(ms[|ms| - 1])
  }

  /** The permission count of a role; 0 when its module list is missing. */
  function PermissionCount(modules: Option<seq<ModuleRecord>>): nat {
    match modules
    case None => 0
    case Some(ms) => ModulesAllowedCount(ms)
  }

  // The number of nodes, allowed or not.

  function SubModuleNodeCount(s: SubModuleRecord): nat {
    1 + |OrEmpty(s.subModules)|
  }

  function SubModulesNodeCount(ss: seq<SubModuleRecord>): nat {
    if ss == [] then 0 else SubModulesNodeCount(ss[..|ss| - 1]) + SubModuleNodeCount(ss[|ss| - 1])
  }

  function ModuleNodeCount(m: ModuleRecord): nat {
    1 + SubModulesNodeCount(OrEmpty(m.subModules))
  }

  function ModulesNodeCount(ms: seq<ModuleRecord>): nat {
    if ms == [] then 0 else ModulesNodeCount(ms[..|ms| - 1]) + ModuleNodeCount(ms[|ms| - 1])
  }

  function NodeCount(modules: Option<seq<ModuleRecord>>): nat {
    match modules
    case None => 0
    case Some(ms) => ModulesNodeCount(ms)
  }

  lemma {:induction false} SubModulesCountBounded(ss: seq<SubModuleRecord>)
    ensures SubModulesAllowedCount(ss) <= SubModulesNodeCount(ss)
  {
    if ss != [] {
      SubModulesCountBounded(ss[..|ss| - 1]);
    }
  }

  lemma {:induction false} ModulesCountBounded(ms: seq<ModuleRecord>)
    ensures ModulesAllowedCount(ms) <= ModulesNodeCount(ms)
  {
    if ms != [] {
      ModulesCountBounded(ms[..|ms| - 1]);
      SubModulesCountBounded(OrEmpty(ms[|ms| - 1].subModules));
    }
  }

  /** The count never exceeds the number of nodes, and is 0 without modules. */
  lemma PermissionCountBounded(modules: Option<seq<ModuleRecord>>)
    ensures PermissionCount(modules) <= NodeCount(modules)
    ensures modules.None? ==> PermissionCount(modules) == 0
  {
    if modules.Some? {
      ModulesCountBounded(modules.value);
    }
  }

  /** Every node allowed: the count reaches the number of nodes. */
  predicate AllRecordsAllowed(ms: seq<ModuleRecord>) {
    forall i | 0 <= i < |ms| ::
      && ms[i].allowed
      && forall j | 0 <= j < |OrEmpty(ms[i].subModules)| ::
        && OrEmpty(ms[i].subModules)[j].allowed
        && forall k | 0 <= k < |OrEmpty(OrEmpty(ms[i].subModules)[j].subModules)| ::
          OrEmpty(OrEmpty(ms[i].subModules)[j].subModules)[k].allowed
  }

  lemma {:induction false} ChildrenAllAllowedCount(cs: seq<ChildRecord>)
    requires forall k | 0 <= k < |cs| :: cs[k].allowed
    ensures ChildrenAllowedCount(cs) == |cs|
  {
    if cs != [] {
      ChildrenAllAllowedCount(cs[..|cs| - 1]);
    }
  }

  lemma {:induction false} SubModulesAllAllowedCount(ss: seq<SubModuleRecord>)
    requires forall j | 0 <= j < |ss| ::
      ss[j].allowed && forall k | 0 <= k < |OrEmpty(ss[j].subModules)| :: OrEmpty(ss[j].subModules)[k].allowed
    ensures SubModulesAllowedCount(ss) == SubModulesNodeCount(ss)
  {
    if ss != [] {
      SubModulesAllAllowedCount(ss[..|ss| - 1]);
      ChildrenAllAllowedCount(OrEmpty(ss[|ss| - 1].subModules));
    }
  }

  lemma {:induction false} AllAllowedCountIsNodeCount(ms: seq<ModuleRecord>)
    requires AllRecordsAllowed(ms)
    ensures ModulesAllowedCount(ms) == ModulesNodeCount(ms)
  {
    if ms != [] {
      AllAllowedCountIsNodeCount(ms[..|ms| - 1]);
      var subs := OrEmpty(ms[|ms| - 1].subModules);
      assert forall j | 0 <= j < |subs| :: subs[j] == OrEmpty(ms[|ms| - 1].subModules)[j];
      SubModulesAllAllowedCount(subs);
    }
  }

  // ---------------------------------------------------------------------------
  // initializeModulesForm / create*Group: the edit tree built from records.
  // ---------------------------------------------------------------------------

  /** `_id || ''`. */
  function IdOrEmpty(id: Option<string>): string {
    id.GetOr("")
  }

  /** `n` was built from `c`: same name, id or '', flag copied only when `useExisting`. */
  predicate ChildBuiltFrom(c: ChildRecord, n: ChildNode, useExisting: bool) {
    n.id == IdOrEmpty(c.id) && n.name == c.name && n.allowed == (useExisting && c.allowed)
  }

  predicate SubModuleBuiltFrom(s: SubModuleRecord, n: SubModuleNode, useExisting: bool) {
    && n.id == IdOrEmpty(s.id) && n.name == s.name && n.allowed == (useExisting && s.allowed)
    && |n.children| == |OrEmpty(s.subModules)|
    && forall k | 0 <= k < |n.children| :: ChildBuiltFrom(OrEmpty(s.subModules)[k], n.children[k], useExisting)
  }

  predicate ModuleBuiltFrom(m: ModuleRecord, n: ModuleNode, useExisting: bool) {
    && n.id == IdOrEmpty(m.id) && n.name == m.name && n.allowed == (useExisting && m.allowed)
    && |n.subModules| == |OrEmpty(m.subModules)|
    && forall j | 0 <= j < |n.subModules| :: SubModuleBuiltFrom(OrEmpty(m.subModules)[j], n.subModules[j], useExisting)
  }

  function CreateChildGroup(c: ChildRecord, useExisting: bool): (n: ChildNode)
    ensures ChildBuiltFrom(c, n, useExisting)
  {
    ChildNode(IdOrEmpty(c.id), c.name, if useExisting then c.allowed else false)
  }

  function CreateSubModuleGroup(s: SubModuleRecord, useExisting: bool): (n: SubModuleNode)
    ensures SubModuleBuiltFrom(s, n, useExisting)
  {
    var cs := OrEmpty(s.subModules);
    SubModuleNode(IdOrEmpty(s.id), s.name, if useExisting then s.allowed else false,
                  seq(|cs|, k requires 0 <= k < |cs| => CreateChildGroup(cs[k], useExisting)))
  }

  function CreateModuleGroup(m: ModuleRecord, useExisting: bool): (n: ModuleNode)
    ensures ModuleBuiltFrom(m, n, useExisting)
  {
    var ss := OrEmpty(m.subModules);
    ModuleNode(IdOrEmpty(m.id), m.name, if useExisting then m.allowed else false,
               seq(|ss|, j requires 0 <= j < |ss| => CreateSubModuleGroup(ss[j], useExisting)))
  }

  /** No flag anywhere in the tree is set. */
  predicate NothingAllowed(ms: seq<ModuleNode>) {
    forall i | 0 <= i < |ms| ::
      && !ms[i].allowed
      && forall j | 0 <= j < |ms[i].subModules| ::
        && !ms[i].subModules[j].allowed
        && forall k | 0 <= k < |ms[i].subModules[j].children| :: !ms[i].subModules[j].children[k].allowed
  }

  /**
   * The tree initializeModulesForm builds: one module per record, in order,
   * each built from its record; no module at all for a missing or empty list;
   * every flag cleared when existing values are not used.
   */
  function BuildModules(src: Option<seq<ModuleRecord>>, useExisting: bool): (r: seq<ModuleNode>)
    ensures |r| == |OrEmpty(src)|
    ensures forall i | 0 <= i < |r| :: ModuleBuiltFrom(OrEmpty(src)[i], r[i], useExisting)
    ensures !useExisting ==> NothingAllowed(r)
  {
    var ms := OrEmpty(src);
    seq(|ms|, i requires 0 <= i < |ms| => CreateModuleGroup(ms[i], useExisting))
  }

  // ---------------------------------------------------------------------------
  // Payloads: prepareFormData (create) and the reduced update body.
  // ---------------------------------------------------------------------------

  datatype ChildPayload = ChildPayload(id: string, name: string, allowed: bool)

  datatype SubModulePayload = SubModulePayload(id: string, name: string, allowed: bool, subModules: seq<ChildPayload>)

  datatype ModulePayload = ModulePayload(id: string, name: string, allowed: bool, subModules: seq<SubModulePayload>)

  /** What prepareFormData returns: `_id`, the upper-cased role and the full tree. */
  datatype RolePayload = RolePayload(id: string, role: string, modules: seq<ModulePayload>)

  /** The create request body: the prepared payload without `_id`. */
  datatype CreateBody = CreateBody(role: string, modules: seq<ModulePayload>)

  datatype ModuleFlag = ModuleFlag(name: string, allowed: bool)

  /** The update request body: module level only. */
  datatype UpdateBody = UpdateBody(role: string, modules: seq<ModuleFlag>)

  predicate ChildSerialized(n: ChildNode, p: ChildPayload) {
    p.id == n.id && p.name == n.name && p.allowed == n.allowed
  }

  predicate SubModuleSerialized(n: SubModuleNode, p: SubModulePayload) {
    && p.id == n.id && p.name == n.name && p.allowed == n.allowed
    && |p.subModules| == |n.children|
    && forall k | 0 <= k < |n.children| :: ChildSerialized(n.children[k], p.subModules[k])
  }

  predicate ModuleSerialized(n: ModuleNode, p: ModulePayload) {
    && p.id == n.id && p.name == n.name && p.allowed == n.allowed
    && |p.subModules| == |n.subModules|
    && forall j | 0 <= j < |n.subModules| :: SubModuleSerialized(n.subModules[j], p.subModules[j])
  }

  function SerializeChild(n: ChildNode): (p: ChildPayload)
    ensures ChildSerialized(n, p)
  {
    ChildPayload(n.id, n.name, n.allowed)
  }

  function SerializeSubModule(n: SubModuleNode): (p: SubModulePayload)
    ensures SubModuleSerialized(n, p)
  {
    SubModulePayload(n.id, n.name, n.allowed,
                     seq(|n.children|, k requires 0 <= k < |n.children| => SerializeChild(n.children[k])))
  }

  function SerializeModule(n: ModuleNode): (p: ModulePayload)
    ensures ModuleSerialized(n, p)
  {
    ModulePayload(n.id, n.name, n.allowed,
                  seq(|n.subModules|, j requires 0 <= j < |n.subModules| => SerializeSubModule(n.subModules[j])))
  }

  /**
   * prepareFormData: the role name upper-cased, the id kept, and the tree
   * reproduced node for node, in order.
   */
  function PrepareFormData(f: RoleForm): (p: RolePayload)
    ensures p.id == f.id && p.role == ToUpper(f.role)
    ensures |p.modules| == |f.modules|
    ensures forall i | 0 <= i < |f.modules| :: ModuleSerialized(f.modules[i], p.modules[i])
  {
    RolePayload(f.id, ToUpper(f.role),
                seq(|f.modules|, i requires 0 <= i < |f.modules| => SerializeModule(f.modules[i])))
  }

  /** createRole: the prepared payload with `_id` removed. */
  function CreateRequestBody(p: RolePayload): (b: CreateBody)
    ensures b.role == p.role && b.modules == p.modules
  {
    CreateBody(p.role, p.modules)
  }

  /** updateRole: the role upper-cased again and one `{name, allowed}` per module. */
  function UpdateRequestBody(p: RolePayload): (b: UpdateBody)
    ensures |b.modules| == |p.modules|
    ensures forall i | 0 <= i < |p.modules| :: b.modules[i] == ModuleFlag(p.modules[i].name, p.modules[i].allowed)
  {
    UpdateBody(ToUpper(p.role),
               seq(|p.modules|, i requires 0 <= i < |p.modules| => ModuleFlag(p.modules[i].name, p.modules[i].allowed)))
  }

  /**
   * The update body sent for a form: the form's role upper-cased once, and
   * exactly one entry per module of the tree, in order, with its name and flag.
   */
  lemma UpdateBodyOfForm(f: RoleForm)
    ensures UpdateRequestBody(PrepareFormData(f)).role == ToUpper(f.role)
    ensures |UpdateRequestBody(PrepareFormData(f)).modules| == |f.modules|
    ensures forall i | 0 <= i < |f.modules| ::
      UpdateRequestBody(PrepareFormData(f)).modules[i] == ModuleFlag(f.modules[i].name, f.modules[i].allowed)
  {
    ToUpperIdempotent(f.role);
  }

  // ---------------------------------------------------------------------------
  // Round trip: a saved tree, read back as records and opened for editing,
  // is the tree that was saved.
  // ---------------------------------------------------------------------------

  function ChildRecordOf(p: ChildPayload): ChildRecord {
    ChildRecord(Some(p.id), p.name, p.allowed)
  }

  function SubModuleRecordOf(p: SubModulePayload): SubModuleRecord {
    SubModuleRecord(Some(p.id), p.name, p.allowed,
                    Some(seq(|p.subModules|, k requires 0 <= k < |p.subModules| => ChildRecordOf(p.subModules[k]))))
  }

  function ModuleRecordOf(p: ModulePayload): ModuleRecord {
    ModuleRecord(Some(p.id), p.name, p.allowed,
                 Some(seq(|p.subModules|, j requires 0 <= j < |p.subModules| => SubModuleRecordOf(p.subModules[j]))))
  }

  function RecordsOf(ps: seq<ModulePayload>): seq<ModuleRecord> {
    seq(|ps|, i requires 0 <= i < |ps| => ModuleRecordOf(ps[i]))
  }

  lemma SubModuleRoundTrip(n: SubModuleNode)
    ensures CreateSubModuleGroup(SubModuleRecordOf(SerializeSubModule(n)), true) == n
  {
    var back := CreateSubModuleGroup(SubModuleRecordOf(SerializeSubModule(n)), true);
    assert |back.children| == |n.children|;
    forall k | 0 <= k < |n.children| ensures back.children[k] == n.children[k] {
    }
  }

  lemma ModuleRoundTrip(n: ModuleNode)
    ensures CreateModuleGroup(ModuleRecordOf(SerializeModule(n)), true) == n
  {
    var back := CreateModuleGroup(ModuleRecordOf(SerializeModule(n)), true);
    assert |back.subModules| == |n.subModules|;
    forall j | 0 <= j < |n.subModules| ensures back.subModules[j] == n.subModules[j] {
      SubModuleRoundTrip(n.subModules[j]);
    }
  }

  /** Rebuilding the edit tree (existing values kept) from a saved payload gives the form's tree back. */
  lemma PayloadRoundTrip(f: RoleForm)
    ensures BuildModules(Some(RecordsOf(PrepareFormData(f).modules)), true) == f.modules
  {
    var back := BuildModules(Some(RecordsOf(PrepareFormData(f).modules)), true);
    forall i | 0 <= i < |f.modules| ensures back[i] == f.modules[i] {
      ModuleRoundTrip(f.modules[i]);
    }
  }

  // ---------------------------------------------------------------------------
  // searchData: case-insensitive filter of the roles table.
  // ---------------------------------------------------------------------------

  /** The row's lower-cased role contains the (already lower-cased) term. */
  predicate RoleMatches(row: RoleRecord, lowerTerm: string) {
    Contains(ToLower(row.role), lowerTerm)
  }

  /** `a` is `b` with some elements dropped, the rest in order. */
  predicate IsSubsequence<T(==)>(a: seq<T>, b: seq<T>) {
    if a == [] then true
    else if b == [] then false
    else if a[0] == b[0] then IsSubsequence(a[1..], b[1..])
    else IsSubsequence(a, b[1..])
  }

  function FilterRoles(rows: seq<RoleRecord>, lowerTerm: string): (r: seq<RoleRecord>)
    ensures forall x :: x in r <==> x in rows && RoleMatches(x, lowerTerm)
  {
    if rows == [] then []
    else if RoleMatches(rows[0], lowerTerm) then [rows[0]] + FilterRoles(rows[1..], lowerTerm)
    else FilterRoles(rows[1..], lowerTerm)
  }

  /** The filter keeps every matching row as often as it occurs, and drops the rest. */
  lemma {:induction false} FilterRolesKeepsMultiplicity(rows: seq<RoleRecord>, lowerTerm: string, x: RoleRecord)
    ensures multiset(FilterRoles(rows, lowerTerm))[x] ==
            if RoleMatches(x, lowerTerm) then multiset(rows)[x] else 0
  {
    if rows != [] {
      FilterRolesKeepsMultiplicity(rows[1..], lowerTerm, x);
      assert rows == [rows[0]] + rows[1..];
    }
  }

  /** The filter keeps the order of the table. */
  lemma {:induction false} FilterRolesIsSubsequence(rows: seq<RoleRecord>, lowerTerm: string)
    ensures IsSubsequence(FilterRoles(rows, lowerTerm), rows)
  {
    if rows != [] {
      FilterRolesIsSubsequence(rows[1..], lowerTerm);
      var rest := FilterRoles(rows[1..], lowerTerm);
      if RoleMatches(rows[0], lowerTerm) {
        assert ([rows[0]] + rest)[1..] == rest;
      } else if rest != [] {
        assert rest[0] in rest;
      }
    }
  }

  /** The rows searchData shows for a search term. */
  function SearchResult(rows: seq<RoleRecord>, term: string): seq<RoleRecord> {
    if IsBlank(term) then rows else FilterRoles(rows, ToLower(term))
  }

  /** The search ignores the case of the term: typing it in capitals shows the same rows. */
  lemma SearchIgnoresTermCase(rows: seq<RoleRecord>, term: string)
    ensures SearchResult(rows, ToUpper(term)) == SearchResult(rows, term)
  {
    UpperKeepsBlank(term);
    LowerOfUpper(term);
  }

  /**
   * A blank term shows the whole table; any other term shows, in table order,
   * exactly the rows whose lower-cased role contains the lower-cased term,
   * each as often as in the table.
   */
  lemma SearchResultSpec(rows: seq<RoleRecord>, term: string)
    ensures IsBlank(term) ==> SearchResult(rows, term) == rows
    ensures !IsBlank(term) ==> IsSubsequence(SearchResult(rows, term), rows)
    ensures !IsBlank(term) ==> forall x ::
      multiset(SearchResult(rows, term))[x] == if RoleMatches(x, ToLower(term)) then multiset(rows)[x] else 0
  {
    if !IsBlank(term) {
      FilterRolesIsSubsequence(rows, ToLower(term));
      forall x ensures multiset(SearchResult(rows, term))[x] ==
                       if RoleMatches(x, ToLower(term)) then multiset(rows)[x] else 0 {
        FilterRolesKeepsMultiplicity(rows, ToLower(term), x);
      }
    }
  }
}
