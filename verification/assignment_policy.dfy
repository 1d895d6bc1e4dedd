/** Who may assign a task to whom: deny edges, the reporting rule, departments, allow edges, the default. */
module AssignmentPolicy {
  import opened Domain
  import opened Wrappers
  import opened Texts
  import Ids = TaskIds

  datatype Profile = Profile(user: string, department: Dept, manager: Option<string>)

  /** One side of an edge, as the record in the policy file; other fields may be present. */
  type Side = map<string, string>

  const USER := "entra_object_id"
  const DEPARTMENT := "department_code"

  datatype Edge = Edge(from: Side, to: Side, bidirectional: bool)

  /** Entries of an edge list that are not records are None. An empty list of leading departments means CEO. */
  datatype Policy = Policy(
    denyEdges: seq<Option<Edge>>,
    edges: seq<Option<Edge>>,
    allowSameDepartment: bool,
    allowCrossDepartment: bool,
    ceoToDirectReports: bool,
    ceoDepartments: seq<string>)

  /** A department code is read without regard to case or surrounding space. */
  function Normal(code: string): string {
    UpperAll(Strip(code))
  }

  // ----- edges -----

  /** An empty side matches nobody; a side with neither a user nor a department matches everybody. */
  predicate Matches(side: Side, p: Profile) {
    if side == map[] then false
    else if USER in side && side[USER] != p.user then false
    else if DEPARTMENT in side && Normal(side[DEPARTMENT]) != Ids.Code(p.department) then false
    else true
  }

  /** What one field of a side asks of a profile; other fields ask nothing. */
  predicate Meets(key: string, value: string, p: Profile) {
    && (key == "entra_object_id" ==> p.user == value)
    && (key == "department_code" ==> Ids.Code(p.department) == UpperAll(Strip(value)))
  }

  /** A side that is not empty matches exactly the profiles that meet each of its fields. */
  lemma MatchesFieldByField(side: Side, p: Profile)
    ensures Matches(side, p) <==> side != map[] && forall key | key in side :: Meets(key, side[key], p)
  {
    if side != map[] && forall key | key in side :: Meets(key, side[key], p) {
      assert USER in side ==> Meets(USER, side[USER], p);
      assert DEPARTMENT in side ==> Meets(DEPARTMENT, side[DEPARTMENT], p);
    }
  }

  /** A side matches everybody exactly when it is not empty and names neither a user nor a department. */
  lemma SideMatchesEverybodyIff(side: Side)
    ensures (forall p: Profile :: Matches(side, p)) <==> side != map[] && USER !in side && DEPARTMENT !in side
  {
    if USER in side {
      assert !Matches(side, Profile(side[USER] + "x", FIN, None));
    } else if DEPARTMENT in side {
      assert Ids.Code(FIN) != Ids.Code(HR);
      assert !Matches(side, Profile("", FIN, None)) || !Matches(side, Profile("", HR, None));
    } else if side == map[] {
      assert !Matches(side, Profile("", FIN, None));
    }
  }

  predicate EdgeApplies(e: Edge, requester: Profile, assignee: Profile) {
    if Matches(e.from, requester) && Matches(e.to, assignee) then true
    else e.bidirectional && Matches(e.from, assignee) && Matches(e.to, requester)
  }

  /** The search for the first edge that applies. */
  predicate SomeApplies(edges: seq<Option<Edge>>, requester: Profile, assignee: Profile) {
    if edges == [] then false
    else if edges[0].Some? && EdgeApplies(edges[0].value, requester, assignee) then true
    else SomeApplies(edges[1..], requester, assignee)
  }

  // ----- the decision -----

  predicate LeadsDepartment(policy: Policy, d: Dept) {
    if policy.ceoDepartments == [] then d == CEO
    else exists i | 0 <= i < |policy.ceoDepartments| :: Normal(policy.ceoDepartments[i]) == Ids.Code(d)
  }

  predicate CeoMayAssign(policy: Policy, requester: Profile, assignee: Profile) {
    if !policy.ceoToDirectReports then false
    else if !LeadsDepartment(policy, requester.department) then false
    else assignee.manager.Some? && assignee.manager.value != "" && assignee.manager.value == requester.user
  }

  predicate CanAssign(policy: Policy, requester: Profile, assignee: Profile) {
    if SomeApplies(policy.denyEdges, requester, assignee) then false
    else if CeoMayAssign(policy, requester, assignee) then true
    else if requester.department == assignee.department && policy.allowSameDepartment then true
    else if SomeApplies(policy.edges, requester, assignee) then true
    else if requester.department != assignee.department && policy.allowCrossDepartment then true
    else false
  }

  // ----- what the decision depends on -----

  /** An edge of the list applies to the pair, in one of its directions. */
  ghost predicate Connected(edges: seq<Option<Edge>>, requester: Profile, assignee: Profile) {
    exists e: Edge :: Some(e) in edges
      && ((Matches(e.from, requester) && Matches(e.to, assignee))
          || (e.bidirectional && Matches(e.from, assignee) && Matches(e.to, requester)))
  }

  lemma {:induction false} SomeAppliesIffConnected(edges: seq<Option<Edge>>, requester: Profile, assignee: Profile)
    ensures SomeApplies(edges, requester, assignee) <==> Connected(edges, requester, assignee)
  {
    if edges != [] {
      SomeAppliesIffConnected(edges[1..], requester, assignee);
      assert edges == [edges[0]] + edges[1..];
      if edges[0].Some? && EdgeApplies(edges[0].value, requester, assignee) {
        assert Some(edges[0].value) in edges;
      }
    }
  }

  /** The decision in closed form: an applicable deny edge always wins; else any one of four grounds is enough. */
  lemma DecisionClosedForm(policy: Policy, requester: Profile, assignee: Profile)
    ensures CanAssign(policy, requester, assignee) <==>
            && !Connected(policy.denyEdges, requester, assignee)
            && (|| (policy.ceoToDirectReports && LeadsDepartment(policy, requester.department)
                    && requester.user != "" && assignee.manager == Some(requester.user))
                || (requester.department == assignee.department && policy.allowSameDepartment)
                || Connected(policy.edges, requester, assignee)
                || (requester.department != assignee.department && policy.allowCrossDepartment))
  {
    SomeAppliesIffConnected(policy.denyEdges, requester, assignee);
    SomeAppliesIffConnected(policy.edges, requester, assignee);
  }

  /** The department is listed as leading; an empty list stands for the chief executive's. */
  ghost predicate Leads(policy: Policy, d: Dept) {
    (policy.ceoDepartments == [] && d == CEO)
    || exists code :: code in policy.ceoDepartments && UpperAll(Strip(code)) == Ids.Code(d)
  }

  /**
   * The reporting rule by itself: with no edge that applies and both defaults off, a user may assign
   * exactly to those who name that user as their manager, and only from a leading department.
   */
  lemma ReportingRule(policy: Policy, requester: Profile, assignee: Profile)
    requires !Connected(policy.denyEdges, requester, assignee) && !Connected(policy.edges, requester, assignee)
    requires !policy.allowSameDepartment && !policy.allowCrossDepartment
    ensures CanAssign(policy, requester, assignee)
       <==> && policy.ceoToDirectReports && Leads(policy, requester.department)
            && requester.user != "" && assignee.manager == Some(requester.user)
  {
    DecisionClosedForm(policy, requester, assignee);
    var listed := policy.ceoDepartments;
    assert forall i | 0 <= i < |listed| :: listed[i] in listed;
    if exists code :: code in listed && UpperAll(Strip(code)) == Ids.Code(requester.department) {
      var code :| code in listed && UpperAll(Strip(code)) == Ids.Code(requester.department);
      var i :| 0 <= i < |listed| && listed[i] == code;
      assert Normal(listed[i]) == Ids.Code(requester.department);
    }
  }

  /** Order and repetition of the edges do not matter, only which edges are listed. */
  lemma EdgeOrderDoesNotMatter(policy: Policy, other: Policy, requester: Profile, assignee: Profile)
    requires forall e :: Some(e) in policy.denyEdges <==> Some(e) in other.denyEdges
    requires forall e :: Some(e) in policy.edges <==> Some(e) in other.edges
    requires other == policy.(denyEdges := other.denyEdges, edges := other.edges)
    ensures CanAssign(policy, requester, assignee) == CanAssign(other, requester, assignee)
  {
    DecisionClosedForm(policy, requester, assignee);
    DecisionClosedForm(other, requester, assignee);
  }

  lemma ConnectedWith(before: seq<Option<Edge>>, after: seq<Option<Edge>>, e: Edge, requester: Profile,
                      assignee: Profile)
    ensures Connected(before + [Some(e)] + after, requester, assignee)
       <==> Connected(before + after, requester, assignee) || EdgeApplies(e, requester, assignee)
  {
    var all := before + [Some(e)] + after;
    assert forall f: Edge :: Some(f) in all <==> Some(f) in before + after || f == e;
  }

  /** A new deny edge takes the permission from exactly the pairs it applies to, wherever it is listed. */
  lemma DenyEdgeOnlyTakes(policy: Policy, before: seq<Option<Edge>>, after: seq<Option<Edge>>, e: Edge,
                          requester: Profile, assignee: Profile)
    requires policy.denyEdges == before + after
    ensures CanAssign(policy.(denyEdges := before + [Some(e)] + after), requester, assignee)
       <==> CanAssign(policy, requester, assignee) && !EdgeApplies(e, requester, assignee)
  {
    ConnectedWith(before, after, e, requester, assignee);
    DecisionClosedForm(policy, requester, assignee);
    DecisionClosedForm(policy.(denyEdges := before + [Some(e)] + after), requester, assignee);
  }

  /** A new allow edge gives the permission to exactly the pairs it applies to that no deny edge excludes. */
  lemma AllowEdgeOnlyGives(policy: Policy, before: seq<Option<Edge>>, after: seq<Option<Edge>>, e: Edge,
                           requester: Profile, assignee: Profile)
    requires policy.edges == before + after
    ensures CanAssign(policy.(edges := before + [Some(e)] + after), requester, assignee)
       <==> CanAssign(policy, requester, assignee)
            || (EdgeApplies(e, requester, assignee) && !Connected(policy.denyEdges, requester, assignee))
  {
    ConnectedWith(before, after, e, requester, assignee);
    DecisionClosedForm(policy, requester, assignee);
    DecisionClosedForm(policy.(edges := before + [Some(e)] + after), requester, assignee);
  }

  predicate AllBidirectional(edges: seq<Option<Edge>>) {
    forall i | 0 <= i < |edges| && edges[i].Some? :: edges[i].value.bidirectional
  }

  lemma BidirectionalIsSymmetric(edges: seq<Option<Edge>>, a: Profile, b: Profile)
    requires AllBidirectional(edges)
    ensures Connected(edges, a, b) <==> Connected(edges, b, a)
  {
    forall e: Edge | Some(e) in edges ensures e.bidirectional {
      var i :| 0 <= i < |edges| && edges[i] == Some(e);
    }
  }

  /** With every edge bidirectional and the reporting rule off, permission is mutual. */
  lemma PermissionIsMutual(policy: Policy, a: Profile, b: Profile)
    requires AllBidirectional(policy.denyEdges) && AllBidirectional(policy.edges) && !policy.ceoToDirectReports
    ensures CanAssign(policy, a, b) <==> CanAssign(policy, b, a)
  {
    DecisionClosedForm(policy, a, b);
    DecisionClosedForm(policy, b, a);
    BidirectionalIsSymmetric(policy.denyEdges, a, b);
    BidirectionalIsSymmetric(policy.edges, a, b);
  }
}
