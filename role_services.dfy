/**
 * The role/action access table of the server (core/domain/role_services.py):
 * which fine-grained actions each role may perform, the admin-interface role
 * lists, and the two queries over the table, get_all_actions and
 * get_role_actions.
 */
module RoleServices {

  /** The outcome of an operation that can raise. */
  datatype Result<T, E> = Ok(value: T) | Err(error: E)

  /**
   * Role identifiers. The thirteen keys of the action table are opaque,
   * pairwise distinct constants; Learner is the LEARNER role that the note on
   * the updatable roles names; Unlisted stands for any other identifier a
   * caller may pass.
   */
  datatype Role =
    | BlogAdmin
    | BlogPostEditor
    | CollectionEditor
    | CurriculumAdmin
    | FullUser
    | Guest
    | MobileLearner
    | Moderator
    | QuestionAdmin
    | ReleaseCoordinator
    | TopicManager
    | TranslationAdmin
    | VoiceoverAdmin
    | Learner
    | Unlisted(id: string)

  /** The actions that can be performed in the system. */
  datatype Action =
    | AcceptAnySuggestion
    | AccessCreatorDashboard
    | AccessLearnerDashboard
    | AccessModeratorPage
    | AccessReleaseCoordinatorPage
    | AccessBlogDashboard
    | AccessBlogAdminPage
    | AccessTopicsAndSkillsDashboard
    | AccessContributorDashboardAdminPage
    | ChangeTopicStatus
    | ChangeStoryStatus
    | CreateCollection
    | CreateExploration
    | CreateNewSkill
    | CreateNewTopic
    | ManageQuestionSkillStatus
    | DeleteAnyActivity
    | DeleteAnyBlogPost
    | DeleteAnyPublicActivity
    | DeleteAnyQuestion
    | DeleteAnySkill
    | DeleteOwnedPrivateActivity
    | DeleteTopic
    | EditAnyActivity
    | EditAnyBlogPost
    | EditAnyPublicActivity
    | EditAnyQuestion
    | EditAnySkill
    | EditAnySubtopicPage
    | EditAnyTopic
    | RunAnyJob
    | EditAnyStory
    | EditOwnedActivity
    | EditOwnedTopic
    | EditOwnedStory
    | EditSkillDescription
    | EditSkill
    | FlagExploration
    | ManageAccount
    | ManageTranslationContributorRoles
    | ManageQuestionContributorRoles
    | ManageMemcache
    | ManageQuestionRights
    | ManageTopicRights
    | ManageBlogPostEditors
    | ModifyCoreRolesForAnyActivity
    | ModifyCoreRolesForOwnedActivity
    | PlayAnyPrivateActivity
    | PlayAnyPublicActivity
    | PublishAnyActivity
    | PublishOwnedActivity
    | PublishOwnedSkill
    | RateAnyPublicExploration
    | SendModeratorEmails
    | SubscribeToUsers
    | SuggestChanges
    | UnpublishAnyPublicActivity
    | VisitAnyQuestionEditorPage
    | VisitAnyTopicEditorPage
    | CanManageVoiceArtist
    | AccessLearnerGroups

  /**
   * The identifier string of each action. Reference data only: no operation
   * or lemma of the model uses it; it records the literal values that the
   * enumeration stands for.
   */
  function ActionName(a: Action): string
  {
    match a
    case AcceptAnySuggestion => "ACCEPT_ANY_SUGGESTION"
    case AccessCreatorDashboard => "ACCESS_CREATOR_DASHBOARD"
    case AccessLearnerDashboard => "ACCESS_LEARNER_DASHBOARD"
    case AccessModeratorPage => "ACCESS_MODERATOR_PAGE"
    case AccessReleaseCoordinatorPage => "ACCESS_RELEASE_COORDINATOR_PAGE"
    case AccessBlogDashboard => "ACCESS_BLOG_DASHBOARD"
    case AccessBlogAdminPage => "ACCESS_BLOG_ADMIN_PAGE"
    case AccessTopicsAndSkillsDashboard => "ACCESS_TOPICS_AND_SKILLS_DASHBOARD"
    case AccessContributorDashboardAdminPage => "ACCESS_CONTRIBUTOR_DASHBOARD_ADMIN_PAGE"
    case ChangeTopicStatus => "CHANGE_TOPIC_STATUS"
    case ChangeStoryStatus => "CHANGE_STORY_STATUS"
    case CreateCollection => "CREATE_COLLECTION"
    case CreateExploration => "CREATE_EXPLORATION"
    case CreateNewSkill => "CREATE_NEW_SKILL"
    case CreateNewTopic => "CREATE_NEW_TOPIC"
    case ManageQuestionSkillStatus => "MANAGE_QUESTION_SKILL_STATUS"
    case DeleteAnyActivity => "DELETE_ANY_ACTIVITY"
    case DeleteAnyBlogPost => "DELETE_ANY_BLOG_POST"
    case DeleteAnyPublicActivity => "DELETE_ANY_PUBLIC_ACTIVITY"
    case DeleteAnyQuestion => "DELETE_ANY_QUESTION"
    case DeleteAnySkill => "DELETE_ANY_SKILL"
    case DeleteOwnedPrivateActivity => "DELETE_OWNED_PRIVATE_ACTIVITY"
    case DeleteTopic => "DELETE_TOPIC"
    case EditAnyActivity => "EDIT_ANY_ACTIVITY"
    case EditAnyBlogPost => "EDIT_ANY_BLOG_POST"
    case EditAnyPublicActivity => "EDIT_ANY_PUBLIC_ACTIVITY"
    case EditAnyQuestion => "EDIT_ANY_QUESTION"
    case EditAnySkill => "EDIT_ANY_SKILL"
    case EditAnySubtopicPage => "EDIT_ANY_SUBTOPIC_PAGE"
    case EditAnyTopic => "EDIT_ANY_TOPIC"
    case RunAnyJob => "RUN_ANY_JOB"
    case EditAnyStory => "EDIT_ANY_STORY"
    case EditOwnedActivity => "EDIT_OWNED_ACTIVITY"
    case EditOwnedTopic => "EDIT_OWNED_TOPIC"
    case EditOwnedStory => "EDIT_OWNED_STORY"
    case EditSkillDescription => "EDIT_SKILL_DESCRIPTION"
    case EditSkill => "EDIT_SKILL"
    case FlagExploration => "FLAG_EXPLORATION"
    case ManageAccount => "MANAGE_ACCOUNT"
    case ManageTranslationContributorRoles => "MANAGE_TRANSLATION_ROLES"
    case ManageQuestionContributorRoles => "MANAGE_QUESTION_ROLES"
    case ManageMemcache => "MANAGE_MEMCACHE"
    case ManageQuestionRights => "MANAGE_QUESTION_RIGHTS"
    case ManageTopicRights => "MANAGE_TOPIC_RIGHTS"
    case ManageBlogPostEditors => "MANAGE_BLOG_POST_EDITORS"
    case ModifyCoreRolesForAnyActivity => "MODIFY_CORE_ROLES_FOR_ANY_ACTIVITY"
    case ModifyCoreRolesForOwnedActivity => "MODIFY_CORE_ROLES_FOR_OWNED_ACTIVITY"
    case PlayAnyPrivateActivity => "PLAY_ANY_PRIVATE_ACTIVITY"
    case PlayAnyPublicActivity => "PLAY_ANY_PUBLIC_ACTIVITY"
    case PublishAnyActivity => "PUBLISH_ANY_ACTIVITY"
    case PublishOwnedActivity => "PUBLISH_OWNED_ACTIVITY"
    case PublishOwnedSkill => "PUBLISH_OWNED_SKILL"
    case RateAnyPublicExploration => "RATE_ANY_PUBLIC_EXPLORATION"
    case SendModeratorEmails => "SEND_MODERATOR_EMAILS"
    case SubscribeToUsers => "SUBSCRIBE_TO_USERS"
    case SuggestChanges => "SUGGEST_CHANGES"
    case UnpublishAnyPublicActivity => "UNPUBLISH_ANY_PUBLIC_ACTIVITY"
    case VisitAnyQuestionEditorPage => "VISIT_ANY_QUESTION_EDITOR_PAGE"
    case VisitAnyTopicEditorPage => "VISIT_ANY_TOPIC_EDITOR_PAGE"
    case CanManageVoiceArtist => "CAN_MANAGE_VOICE_ARTIST"
    case AccessLearnerGroups => "ACCESS_LEARNER_GROUPS"
  }

  /** The reason get_all_actions fails: 'Role %s does not exist.' */
  datatype RoleError = RoleDoesNotExist(role: Role)

  /** Roles a user can be updated to via the admin interface; never LEARNER. */
  const UpdatableRoles: seq<Role> := [
    BlogAdmin, CurriculumAdmin, CollectionEditor, FullUser, VoiceoverAdmin,
    Moderator, QuestionAdmin, ReleaseCoordinator, TopicManager, TranslationAdmin
  ]

  /** Roles whose users can be viewed via the admin interface; never MOBILE_LEARNER. */
  const ViewableRoles: seq<Role> := [
    BlogAdmin, BlogPostEditor, CollectionEditor, CurriculumAdmin, Moderator,
    QuestionAdmin, ReleaseCoordinator, TopicManager, TranslationAdmin, VoiceoverAdmin
  ]

  /** The display name of each role that is visible to the admin. */
  const HumanReadableRoles: map<Role, string> := map[
    BlogAdmin := "blog admin",
    BlogPostEditor := "blog post editor",
    CollectionEditor := "collection editor",
    CurriculumAdmin := "curriculum admin",
    FullUser := "full user",
    Guest := "guest",
    MobileLearner := "mobile learner",
    Moderator := "moderator",
    QuestionAdmin := "question admin",
    ReleaseCoordinator := "release coordinator",
    TopicManager := "topic manager",
    TranslationAdmin := "translation admin",
    VoiceoverAdmin := "voiceover admin"
  ]

  /** A role/action table: the action list of each role it knows. */
  type Table = map<Role, seq<Action>>

  /** The actions that belong to each role, as the lists the table holds. */
  const RoleActions: Table := map[
    CurriculumAdmin := [
      AcceptAnySuggestion, AccessTopicsAndSkillsDashboard, ChangeStoryStatus,
      ChangeTopicStatus, CreateNewSkill, CreateNewTopic, DeleteAnyActivity,
      DeleteAnyQuestion, DeleteAnySkill, DeleteTopic, EditAnyActivity,
      EditAnyQuestion, EditAnyStory, EditAnySubtopicPage, EditAnyTopic, EditSkill,
      EditSkillDescription, EditOwnedTopic, ManageQuestionSkillStatus,
      ManageTopicRights, ModifyCoreRolesForAnyActivity, PublishAnyActivity,
      PublishOwnedSkill, VisitAnyQuestionEditorPage, VisitAnyTopicEditorPage
    ],
    CollectionEditor := [CreateCollection],
    FullUser := [
      AccessCreatorDashboard, AccessLearnerDashboard, AccessLearnerGroups,
      CreateExploration, DeleteOwnedPrivateActivity, EditOwnedActivity,
      FlagExploration, ManageAccount, ModifyCoreRolesForOwnedActivity,
      PlayAnyPublicActivity, PublishOwnedActivity, RateAnyPublicExploration,
      SubscribeToUsers, SuggestChanges
    ],
    Guest := [PlayAnyPublicActivity],
    MobileLearner := [PlayAnyPublicActivity],
    Moderator := [
      AccessModeratorPage, DeleteAnyActivity, DeleteAnyPublicActivity,
      EditAnyActivity, EditAnyPublicActivity, PlayAnyPrivateActivity,
      SendModeratorEmails, UnpublishAnyPublicActivity, ModifyCoreRolesForAnyActivity
    ],
    ReleaseCoordinator := [AccessReleaseCoordinatorPage, ManageMemcache, RunAnyJob],
    TopicManager := [
      AccessTopicsAndSkillsDashboard, DeleteAnyQuestion, EditAnyQuestion,
      EditOwnedStory, EditOwnedTopic, EditSkill, EditAnySubtopicPage,
      ManageQuestionSkillStatus, VisitAnyQuestionEditorPage, VisitAnyTopicEditorPage
    ],
    VoiceoverAdmin := [CanManageVoiceArtist],
    QuestionAdmin := [AccessContributorDashboardAdminPage, ManageQuestionContributorRoles],
    TranslationAdmin := [AccessContributorDashboardAdminPage, ManageTranslationContributorRoles],
    BlogAdmin := [
      AccessBlogAdminPage, AccessBlogDashboard, DeleteAnyBlogPost, EditAnyBlogPost,
      ManageBlogPostEditors
    ],
    BlogPostEditor := [AccessBlogDashboard]
  ]

  // ---------------------------------------------------------------------------
  // Specification, for any table

  /** The set of elements of a list, as Python's set(list). */
  function Elements<T>(s: seq<T>): set<T>
  {
    set x | x in s
  }

  predicate NoDuplicates<T(==)>(s: seq<T>)
  {
    forall i, j :: 0 <= i < j < |s| ==> s[i] != s[j]
  }

  /** Every role of the list is a key of the table. */
  predicate AllKnown(table: Table, roles: seq<Role>)
  {
    forall i :: 0 <= i < |roles| ==> roles[i] in table
  }

  /**
   * The actions granted by a list of roles: the union of their action sets,
   * folded over the list from the left as get_all_actions does.
   */
  function Granted(table: Table, roles: seq<Role>): set<Action>
    requires AllKnown(table, roles)
    decreases |roles|
  {
    if roles == [] then {}
    else Granted(table, roles[..|roles| - 1]) + Elements(table[roles[|roles| - 1]])
  }

  /** The position of the first role of the list that is not in the table. */
  function FirstUnknown(table: Table, roles: seq<Role>): (i: nat)
    requires !AllKnown(table, roles)
    ensures i < |roles| && roles[i] !in table
    ensures forall j :: 0 <= j < i ==> roles[j] in table
  {
    if roles[0] !in table then 0 else 1 + FirstUnknown(table, roles[1..])
  }

  /** Role `roles[i]` grants action `a`. */
  predicate GrantedAt(table: Table, roles: seq<Role>, i: int, a: Action)
  {
    0 <= i < |roles| && roles[i] in table && a in table[roles[i]]
  }

  // ---------------------------------------------------------------------------
  // Operations

  /**
   * get_all_actions: the actions the given roles may perform, as a list without
   * duplicates, or the error for the first role that is not in the table.
   */
  method GetAllActions(roles: seq<Role>) returns (result: Result<seq<Action>, RoleError>)
    ensures result.Ok? <==> AllKnown(RoleActions, roles)
    ensures result.Ok? ==>
      Elements(result.value) == Granted(RoleActions, roles) && NoDuplicates(result.value)
    ensures result.Err? ==>
      result.error == RoleDoesNotExist(roles[FirstUnknown(RoleActions, roles)])
    ensures roles == [] ==> result == Ok([])
  {
    result := AllActionsIn(RoleActions, roles);
  }

  /** The loop of get_all_actions, over whichever table it consults. */
  method AllActionsIn(table: Table, roles: seq<Role>) returns (result: Result<seq<Action>, RoleError>)
    ensures result.Ok? <==> AllKnown(table, roles)
    ensures result.Ok? ==>
      Elements(result.value) == Granted(table, roles) && NoDuplicates(result.value)
    ensures result.Err? ==>
      result.error == RoleDoesNotExist(roles[FirstUnknown(table, roles)])
    ensures roles == [] ==> result == Ok([])
  {
    var roleActions: set<Action> := {};
    var i := 0;
    while i < |roles|
      invariant i <= |roles|
      invariant AllKnown(table, roles[..i])
      invariant roleActions == Granted(table, roles[..i])
    {
      var role := roles[i];
      if role !in table {
        return Err(RoleDoesNotExist(role));
      }
      assert roles[..i + 1][..i] == roles[..i];
      roleActions := roleActions + Elements(table[role]);
      i := i + 1;
    }
    assert roles[..i] == roles;
    var actions := ListOf(roleActions);
    return Ok(actions);
  }

  /**
   * list(s) for a set: every element exactly once, in an order the model
   * leaves unspecified, as Python's set iteration order is.
   */
  method ListOf(s: set<Action>) returns (r: seq<Action>)
    ensures Elements(r) == s && NoDuplicates(r) && |r| == |s|
  {
    r := [];
    var rest := s;
    while rest != {}
      invariant Elements(r) + rest == s
      invariant Elements(r) !! rest
      invariant NoDuplicates(r)
      invariant |r| + |rest| == |s|
      decreases |rest|
    {
      var x :| x in rest;
      r := r + [x];
      rest := rest - {x};
    }
  }

  /**
   * get_role_actions: a copy of the whole table. Its keys are exactly the roles
   * get_all_actions accepts, and each role's list holds exactly the actions
   * get_all_actions grants that role alone.
   */
  function GetRoleActions(): (m: Table)
    ensures m.Keys == RoleActions.Keys && forall r :: r in m ==> m[r] == RoleActions[r]
    ensures forall r :: r in m <==> AllKnown(RoleActions, [r])
    ensures forall r :: r in m ==> Elements(m[r]) == Granted(RoleActions, [r])
  {
    var m := map r | r in RoleActions :: RoleActions[r];
    assert forall r :: (r in m <==> AllKnown(RoleActions, [r])) && (r in m ==> Elements(m[r]) == Granted(RoleActions, [r])) by {
      forall r ensures (r in m <==> AllKnown(RoleActions, [r])) && (r in m ==> Elements(m[r]) == Granted(RoleActions, [r])) {
        GrantedSingle(RoleActions, r);
      }
    }
    m
  }

  // ---------------------------------------------------------------------------
  // Properties of get_all_actions

  /** A single role is accepted exactly when it is a key, and grants exactly its own list. */
  lemma GrantedSingle(table: Table, r: Role)
    ensures AllKnown(table, [r]) <==> r in table
    ensures r in table ==> Granted(table, [r]) == Elements(table[r])
  {
    if AllKnown(table, [r]) { assert [r][0] == r; }
    if r in table { assert [r][..0] == []; }
  }

  /** Granted holds exactly the actions of some role of the list: nothing more, nothing less. */
  lemma {:induction false} GrantedMembership(table: Table, roles: seq<Role>, a: Action)
    requires AllKnown(table, roles)
    ensures a in Granted(table, roles) <==> exists i :: GrantedAt(table, roles, i, a)
    decreases |roles|
  {
    if roles != [] {
      var n := |roles| - 1;
      var init := roles[..n];
      GrantedMembership(table, init, a);
      if a in Granted(table, roles) {
        if a !in Granted(table, init) {
          assert GrantedAt(table, roles, n, a);
        } else {
          var i :| GrantedAt(table, init, i, a);
          assert GrantedAt(table, roles, i, a);
        }
      }
      if exists i :: GrantedAt(table, roles, i, a) {
        var i :| GrantedAt(table, roles, i, a);
        if i < n {
          assert GrantedAt(table, init, i, a);
        }
      }
    }
  }

  /** The same, with the positions forgotten: Granted is the union over the set of roles passed. */
  lemma GrantedBySet(table: Table, roles: seq<Role>, a: Action)
    requires AllKnown(table, roles)
    ensures a in Granted(table, roles) <==> exists r :: r in Elements(roles) && r in table && a in table[r]
  {
    GrantedMembership(table, roles, a);
    if exists r :: r in Elements(roles) && r in table && a in table[r] {
      var r :| r in Elements(roles) && r in table && a in table[r];
      var i :| 0 <= i < |roles| && roles[i] == r;
      assert GrantedAt(table, roles, i, a);
    }
  }

  /** The union over a concatenation is the union of the two unions. */
  lemma {:induction false} GrantedAppend(table: Table, roles1: seq<Role>, roles2: seq<Role>)
    requires AllKnown(table, roles1) && AllKnown(table, roles2)
    ensures AllKnown(table, roles1 + roles2)
    ensures Granted(table, roles1 + roles2) == Granted(table, roles1) + Granted(table, roles2)
    decreases |roles2|
  {
    var both := roles1 + roles2;
    assert AllKnown(table, both) by {
      forall i | 0 <= i < |both| ensures both[i] in table {
        if i >= |roles1| { assert both[i] == roles2[i - |roles1|]; }
      }
    }
    if roles2 == [] {
      assert both == roles1;
    } else {
      var n := |roles2| - 1;
      GrantedAppend(table, roles1, roles2[..n]);
      assert both[..|both| - 1] == roles1 + roles2[..n];
    }
  }

  /** Which actions are granted depends neither on the order of the roles nor on repetitions. */
  lemma GrantedIgnoresOrderAndRepetition(table: Table, roles1: seq<Role>, roles2: seq<Role>)
    requires AllKnown(table, roles1) && Elements(roles1) == Elements(roles2)
    ensures AllKnown(table, roles2)
    ensures Granted(table, roles1) == Granted(table, roles2)
  {
    assert AllKnown(table, roles2) by {
      forall i | 0 <= i < |roles2| ensures roles2[i] in table {
        assert roles2[i] in Elements(roles1);
      }
    }
    forall a ensures a in Granted(table, roles1) <==> a in Granted(table, roles2) {
      GrantedBySet(table, roles1, a);
      GrantedBySet(table, roles2, a);
    }
  }

  /** Granting more roles never takes an action away; a sub-list of valid roles is valid. */
  lemma GrantedMonotonic(table: Table, roles1: seq<Role>, roles2: seq<Role>)
    requires AllKnown(table, roles2) && Elements(roles1) <= Elements(roles2)
    ensures AllKnown(table, roles1)
    ensures Granted(table, roles1) <= Granted(table, roles2)
  {
    assert AllKnown(table, roles1) by {
      forall i | 0 <= i < |roles1| ensures roles1[i] in table {
        assert roles1[i] in Elements(roles2);
      }
    }
    forall a | a in Granted(table, roles1) ensures a in Granted(table, roles2) {
      GrantedBySet(table, roles1, a);
      GrantedBySet(table, roles2, a);
    }
  }

  /** Whether get_all_actions fails depends only on which roles are passed, not on their order. */
  lemma FailureIgnoresOrder(table: Table, roles1: seq<Role>, roles2: seq<Role>)
    requires Elements(roles1) == Elements(roles2)
    ensures AllKnown(table, roles1) <==> AllKnown(table, roles2)
  {
    if AllKnown(table, roles1) {
      GrantedIgnoresOrderAndRepetition(table, roles1, roles2);
    } else if AllKnown(table, roles2) {
      GrantedIgnoresOrderAndRepetition(table, roles2, roles1);
    }
  }

  // ---------------------------------------------------------------------------
  // Consistency of the constant tables

  /** Every updatable and viewable role, and every role with a display name, is a key of the action table. */
  lemma MetadataRolesAreTableKeys()
    ensures AllKnown(RoleActions, UpdatableRoles) && AllKnown(RoleActions, ViewableRoles)
    ensures HumanReadableRoles.Keys == RoleActions.Keys
  {
  }

  /** LEARNER is not updatable and MOBILE_LEARNER is not viewable; neither list repeats a role. */
  lemma AdminListsExclusions()
    ensures Learner !in UpdatableRoles && MobileLearner !in ViewableRoles
    ensures NoDuplicates(UpdatableRoles) && NoDuplicates(ViewableRoles)
  {
  }
}
