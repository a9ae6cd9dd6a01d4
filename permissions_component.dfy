/**
 * The permissions page: the role table and its search, the add/view modal
 * and the edit tree behind its checkboxes. The loops of the component
 * (the cascades and the permission count) are methods proved against the
 * functions of PermissionTree.
 */
module PermissionsComponent {
  import opened Options
  import opened Text
  import opened PermissionTree

  /** toggleAllChildren: every child's flag set to `isAllowed`, one after the other. */
  method ToggleAllChildren(children: seq<ChildNode>, isAllowed: bool) returns (r: seq<ChildNode>)
    ensures r == CascadeChildren(children, isAllowed)
  {
    r := children;
    var k := 0;
    while k < |r|
      invariant 0 <= k <= |r| == |children|
      invariant forall k' | 0 <= k' < k :: r[k'] == children[k'].(allowed := isAllowed)
      invariant forall k' | k <= k' < |r| :: r[k'] == children[k']
    {
      r := r[k := r[k].(allowed := isAllowed)];
      k := k + 1;
    }
  }

  /** toggleAllSubModules: each sub-module set to `isAllowed`, then its children. */
  method ToggleAllSubModules(subModules: seq<SubModuleNode>, isAllowed: bool) returns (r: seq<SubModuleNode>)
    ensures r == CascadeSubModules(subModules, isAllowed)
  {
    r := subModules;
    var j := 0;
    while j < |r|
      invariant 0 <= j <= |r| == |subModules|
      invariant forall j' | 0 <= j' < j :: r[j'] == CascadeSubModule(subModules[j'], isAllowed)
      invariant forall j' | j <= j' < |r| :: r[j'] == subModules[j']
    {
      var children := ToggleAllChildren(r[j].children, isAllowed);
      r := r[j := r[j].(allowed := isAllowed, children := children)];
      j := j + 1;
    }
  }

  /** calculatePermissionCount: a counter bumped for each allowed node, level by level. */
  method CalculatePermissionCount(modules: Option<seq<ModuleRecord>>) returns (count: nat)
    ensures count == PermissionCount(modules)
  {
    if modules.None? {
      return 0;
    }
    var ms := modules.value;
    count := 0;
    var i := 0;
    while i < |ms|
      invariant 0 <= i <= |ms|
      invariant count == ModulesAllowedCount(ms[..i])
    {
      var m := ms[i];
      if m.allowed {
        count := count + 1;
      }
      var subs := OrEmpty(m.subModules);
      var j := 0;
      while j < |subs|
        invariant 0 <= j <= |subs|
        invariant count == ModulesAllowedCount(ms[..i]) + Flag(m.allowed) + SubModulesAllowedCount(subs[..j])
      {
        var s := subs[j];
        if s.allowed {
          count := count + 1;
        }
        var children := OrEmpty(s.subModules);
        var k := 0;
        while k < |children|
          invariant 0 <= k <= |children|
          invariant count == ModulesAllowedCount(ms[..i]) + Flag(m.allowed) + SubModulesAllowedCount(subs[..j])
                             + Flag(s.allowed) + ChildrenAllowedCount(children[..k])
        {
          if children[k].allowed {
            count := count + 1;
          }
          assert children[..k + 1][..k] == children[..k];
          k := k + 1;
        }
        assert children[..k] == children;
        assert subs[..j + 1][..j] == subs[..j];
        j := j + 1;
      }
      assert subs[..j] == subs;
      assert ms[..i + 1][..i] == ms[..i];
      i := i + 1;
    }
    assert ms[..i] == ms;
  }

  /** The modules used when the table has none: a single "Cricket" module, nothing allowed. */
  function DefaultModules(): (r: seq<ModuleRecord>)
    ensures |r| == 1 && r[0].name == "Cricket" && OrEmpty(r[0].subModules) == []
    ensures PermissionCount(Some(r)) == 0
    ensures BuildModules(Some(r), false) == [ModuleNode("", "Cricket", false, [])]
  {
    [ModuleRecord(Some(""), "Cricket", false, Some([]))]
  }

  /**
   * The module structure a new role starts from: the first table row's
   * modules when that row has a modules array (even an empty one), else the
   * default module.
   */
  function AddRoleSource(tableData: seq<RoleRecord>): (src: Option<seq<ModuleRecord>>)
    ensures src.Some?
    ensures |tableData| > 0 && tableData[0].modules.Some? ==> src == tableData[0].modules
    ensures !(|tableData| > 0 && tableData[0].modules.Some?) ==> src == Some(DefaultModules())
  {
    if |tableData| > 0 && tableData[0].modules.Some? then tableData[0].modules else Some(DefaultModules())
  }

  class PermissionsEditor {
    var newRoleName: string
    var searchDataValue: string
    var formError: string
    var showModal: bool
    var isEditing: bool
    /** The role form: `_id`, `role` and the `modules` form array. */
    var formId: string
    var formRole: string
    var modules: seq<ModuleNode>
    var tableData: seq<RoleRecord>
    var filteredData: seq<RoleRecord>

    /** The component after initializeForm: an empty form, an empty table. */
    constructor ()
      ensures newRoleName == "" && searchDataValue == "" && formError == ""
      ensures !showModal && !isEditing
      ensures formId == "" && formRole == "" && modules == []
      ensures tableData == [] && filteredData == []
    {
      newRoleName, searchDataValue, formError := "", "", "";
      showModal, isEditing := false, false;
      formId, formRole, modules := "", "", [];
      tableData, filteredData := [], [];
    }

    /** onModuleToggle(i), run after the checkbox wrote module i's new flag. */
    method OnModuleToggle(moduleIndex: nat)
      requires moduleIndex < |modules|
      modifies this`modules
      ensures modules == ModuleToggled(old(modules), moduleIndex)
    {
      var moduleGroup := modules[moduleIndex];
      var subModules := ToggleAllSubModules(moduleGroup.subModules, moduleGroup.allowed);
      modules := modules[moduleIndex := moduleGroup.(subModules := subModules)];
    }

    /** onSubModuleToggle(i, j): cascade to the children, then updateParentModuleState. */
    method OnSubModuleToggle(moduleIndex: nat, subModuleIndex: nat)
      requires moduleIndex < |modules| && subModuleIndex < |modules[moduleIndex].subModules|
      modifies this`modules
      ensures modules == SubModuleToggled(old(modules), moduleIndex, subModuleIndex)
    {
      var moduleGroup := modules[moduleIndex];
      var subModuleGroup := moduleGroup.subModules[subModuleIndex];
      var children := ToggleAllChildren(subModuleGroup.children, subModuleGroup.allowed);
      modules := modules[moduleIndex := moduleGroup.(subModules := moduleGroup.subModules[subModuleIndex := subModuleGroup.(children := children)])];
      UpdateParentModuleState(moduleIndex);
    }

    /** onChildToggle(i, j, k): recompute sub-module j, then updateParentModuleState. */
    method OnChildToggle(moduleIndex: nat, subModuleIndex: nat, childIndex: int)
      requires moduleIndex < |modules| && subModuleIndex < |modules[moduleIndex].subModules|
      modifies this`modules
      ensures modules == ChildToggled(old(modules), moduleIndex, subModuleIndex, childIndex)
    {
      var moduleGroup := modules[moduleIndex];
      var subModuleGroup := moduleGroup.subModules[subModuleIndex];
      var allChildrenAllowed := EveryChildAllowed(subModuleGroup.children);
      modules := modules[moduleIndex := moduleGroup.(subModules := moduleGroup.subModules[subModuleIndex := subModuleGroup.(allowed := allChildrenAllowed)])];
      UpdateParentModuleState(moduleIndex);
    }

    /** updateParentModuleState: the module becomes the AND of its sub-modules; nothing else changes. */
    method UpdateParentModuleState(moduleIndex: nat)
      requires moduleIndex < |modules|
      modifies this`modules
      ensures |modules| == |old(modules)|
      ensures forall i | 0 <= i < |modules| && i != moduleIndex :: modules[i] == old(modules)[i]
      ensures modules[moduleIndex].subModules == old(modules)[moduleIndex].subModules
      ensures modules[moduleIndex].id == old(modules)[moduleIndex].id
      ensures modules[moduleIndex].name == old(modules)[moduleIndex].name
      ensures modules[moduleIndex].allowed <==>
                forall j | 0 <= j < |modules[moduleIndex].subModules| :: modules[moduleIndex].subModules[j].allowed
    {
      var moduleGroup := modules[moduleIndex];
      var allSubModulesAllowed := EverySubModuleAllowed(moduleGroup.subModules);
      modules := modules[moduleIndex := moduleGroup.(allowed := allSubModulesAllowed)];
    }

    /** initializeModulesForm: clear the form array, then push one group per module. */
    method InitializeModulesForm(src: Option<seq<ModuleRecord>>, useExistingValues: bool)
      modifies this`modules
      ensures modules == BuildModules(src, useExistingValues)
    {
      modules := [];
      if src.None? || |src.value| == 0 {
        return;
      }
      var ms := src.value;
      var i := 0;
      while i < |ms|
        invariant 0 <= i <= |ms|
        invariant |modules| == i
        invariant forall i' | 0 <= i' < i :: modules[i'] == CreateModuleGroup(ms[i'], useExistingValues)
      {
        modules := modules + [CreateModuleGroup(ms[i], useExistingValues)];
        i := i + 1;
      }
    }

    /** searchData: the whole table for a blank term, else the matching rows. */
    method SearchData(searchTerm: string)
      modifies this`filteredData
      ensures filteredData == SearchResult(tableData, searchTerm)
    {
      if IsBlank(searchTerm) {
        filteredData := tableData;
        return;
      }
      var term := ToLower(searchTerm);
      filteredData := FilterRoles(tableData, term);
    }

    /** clearSearch: empty search box, whole table shown. */
    method ClearSearch()
      modifies this`searchDataValue, this`filteredData
      ensures searchDataValue == "" && filteredData == tableData
    {
      searchDataValue := "";
      filteredData := tableData;
    }

    /**
     * openAddRoleModal: a blank name only sets the error. Otherwise the modal
     * opens in add mode on the trimmed name.
     */
    method OpenAddRoleModal()
      modifies this`formError, this`isEditing, this`formId, this`formRole, this`modules, this`showModal
      ensures Trim(old(newRoleName)) == [] ==>
                && formError == "Please enter a role name"
                && showModal == old(showModal) && isEditing == old(isEditing)
                && formId == old(formId) && formRole == old(formRole) && modules == old(modules)
      ensures Trim(old(newRoleName)) != [] ==>
                && formError == "" && showModal && !isEditing
                && formId == "" && formRole == Trim(old(newRoleName))
                && modules == BuildModules(AddRoleSource(tableData), false)
    {
      var name := newRoleName;
      var trimmed := Trim(name);
      if |name| == 0 || |trimmed| == 0 {
        assert trimmed == [];
        formError := "Please enter a role name";
        return;
      }
      OpenInAddMode(trimmed);
    }

    /**
     * The add branch of openAddRoleModal: the form is reset to the new name
     * with no id, and the tree takes the first table row's module structure
     * (or the default module) with every flag cleared.
     */
    method OpenInAddMode(roleName: string)
      modifies this`formError, this`isEditing, this`formId, this`formRole, this`modules, this`showModal
      ensures formError == "" && showModal && !isEditing
      ensures formId == "" && formRole == roleName
      ensures modules == BuildModules(AddRoleSource(tableData), false)
      ensures NothingAllowed(modules)
    {
      isEditing := false;
      formError := "";
      formId, formRole := "", roleName;
      InitializeModulesForm(AddRoleSource(tableData), false);
      showModal := true;
    }

    /** viewPermission: the modal opens in edit mode on the role, every flag kept. */
    method ViewPermission(role: RoleRecord)
      modifies this`formError, this`isEditing, this`formId, this`formRole, this`modules, this`showModal
      ensures isEditing && showModal && formError == ""
      ensures formId == role.id && formRole == role.role
      ensures modules == BuildModules(role.modules, true)
    {
      isEditing := true;
      formError := "";
      formId, formRole := role.id, role.role;
      InitializeModulesForm(role.modules, true);
      showModal := true;
    }

    /** closeModal: the modal closes and the in-progress tree is discarded. */
    method CloseModal()
      modifies this`showModal, this`formError, this`formId, this`formRole, this`modules
      ensures !showModal && formError == "" && formId == "" && formRole == "" && modules == []
    {
      showModal := false;
      formError := "";
      formId, formRole := "", "";
      modules := [];
    }
  }
}
