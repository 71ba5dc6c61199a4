# Task and performance core of a role-based BPMS front end

This project models the core of a React front end for a business-process
management system. It uses the role-based model in which an
administrator, an HR manager, a manager and an employee each see their
own part of the system. The project is written in Dafny.

What it models:

- **The storage service.** An in-memory table of records per entity
  (projects, tasks, performance, notifications). It is seeded with
  demonstration data and supports `getAll`, `getById`, `create`,
  `update` and `delete`. Records are JavaScript objects, modelled as
  maps from field names to JSON-like values.
- **The models.** `Task`, `Project`, `Notification` and `Performance`
  wrap a raw record. Each applies its `||` defaults, and `Performance`
  also computes its completion rate.
- **The controllers.** Task, project, performance, notification,
  validation and AI recommendation logic on top of the store. That
  covers the task workflow (Not Started, In Progress, Completed, then
  Pending validation, then Validated or Rejected), the welcome
  notifications and the progress figures.
- **The Task & Performance dashboards.**
  - Employee dashboard: the three tabs, the ten-minute lock and the
    status control.
  - Manager dashboard: validation, task creation, task deletion, the
    review queue and project progress.
- **Role handling.** The role context (four roles, with the persisted
  choice), the role guard, the navigation table and the router's
  guards, the sidebar filtered by role, the breadcrumb trail and the
  placeholder page title.
- **The administration pages.** User management (search, counts,
  account creation, editing), enterprise management (tenant
  visibility by `company_id`, search, totals, company creation) and the
  employee directory (self-only view for employees, department list,
  search).
- **The AI assistant.** It routes a message to a canned reply by
  keyword and handles sending from the input box or a suggestion chip.

The following are parameters of the operations that use them:

- the clock, as `Date.now()` values and the formatted date and time
  strings;
- the persisted browser storage;
- the user's confirmation.

Operations that read a field of `null` or call a method that does not
exist are modelled as `Result` errors (`ReadOfNull`, `NotAFunction`),
where JavaScript would throw a `TypeError`.

Where the code and its surrounding description differ, the model
follows the code:

- Tasks belong to a project when `projectId === id` holds strictly.
- The controller's validation queue requires both `Pending` and
  `Completed`. The manager page's own queue requires only `Pending`.
- `checkDeadlines` seeds notifications only for a user who has none at
  all, read or unread.
- `handleValidation` on the manager page calls the task controller
  directly, so it sends no notification.

## Model

| member | source | states |
|---|---|---|
| StorageService.Seeded | src/services/StorageService.js:38-48 | seeding adds the three seed tables exactly where they are missing and keeps every existing table as it was; notifications are never seeded |
| StorageService.SeededIdempotent | src/services/StorageService.js:38-48 | initialising twice is the same as initialising once |
| StorageService.TaskSeedReads | src/services/StorageService.js:21-27 | a seeded task record carries exactly the id, title, project, priority, status, deadline and validation status it was written with |
| StorageService.ProjectSeedReads | src/services/StorageService.js:16-20 | a seeded project record carries exactly the fields it was written with |
| StorageService.SeedPendingNotCompleted | src/services/StorageService.js:21-27 | the first seeded task is Completed and Validated; the other four are not Completed and await validation |
| StorageService.FindIndex | src/services/StorageService.js:79 | `findIndex`: the index of the first record with the id, or none exactly when no record has it |
| StorageService.Updated | src/services/StorageService.js:77-86 | `update` changes only the first record with the id, merging the updates over it; with no such record the list is unchanged |
| StorageService.UpdatedIdempotent | src/services/StorageService.js:77-86 | the updated record keeps its position, and applying the same update twice is applying it once |
| StorageService.Find | src/services/StorageService.js:64-67 | `find` returns the first record of the list with the id, or nothing exactly when no record has it |
| StorageService.Deleted | src/services/StorageService.js:88-92 | `delete` keeps exactly the records whose id differs, in order, keeping every copy of a kept record and dropping every copy of the others |
| StorageService.DeleteUnknown | src/services/StorageService.js:88-92 | deleting an absent id changes nothing |
| StorageService.DeleteIdempotent | src/services/StorageService.js:88-92 | deleting twice is deleting once |
| StorageService.Stamped | src/services/StorageService.js:71 | a created record is the item with `id` set to the clock value and every other field kept |
| StorageService.StampedGet | src/services/StorageService.js:71 | reading any field other than `id` from a stamped record gives the item's value |
| StorageService.CreateThenFind | src/services/StorageService.js:69-75 | after `create` the new record is found under its fresh id (when no older record has that id) |
| StorageService.Store.constructor | src/services/StorageService.js:34-36 | constructing the service seeds the persisted tables |
| StorageService.Store.Init | src/services/StorageService.js:38-48 | the store becomes the seeded version of its old contents |
| StorageService.Store.GetAll | src/services/StorageService.js:50-62 | an absent table reads as the empty list; otherwise its records |
| StorageService.Store.GetById | src/services/StorageService.js:64-67 | the record found is the first of the table with the id; none exactly when no record has it |
| StorageService.Store.Create | src/services/StorageService.js:69-75 | appends the stamped item to its table, returns it, and leaves the other tables alone |
| StorageService.Store.Update | src/services/StorageService.js:77-86 | with no record of that id, returns null and writes nothing; otherwise writes the merged list and returns the merged record |
| StorageService.Store.Delete | src/services/StorageService.js:88-92 | the table becomes the records with a different id |
| TaskModel.TaskOf | src/models/Task.js:15-24 | copies id, title, project, assignee, priority and deadline; status defaults to 'Not Started' and validation to 'Pending' exactly when the field is falsy |
| TaskModel.ToRecord | src/models/Task.js:15-24 | a task stored back has exactly the eight task fields, with its status and validation status |
| TaskModel.TaskIdempotent | src/models/Task.js:15-24 | wrapping an already wrapped task changes nothing |
| TaskModel.TaskDropsFields | src/models/Task.js:15-24 | every field outside the eight (such as `completedAt` or `createdAt`) is lost by the wrapper |
| TaskModel.TaskKeepsExplicit | src/models/Task.js:21-23 | explicit status and validation strings are kept; missing ones get the defaults |
| ProjectModel.ProjectOf | src/models/Project.js:15-24 | copies the project fields; status defaults to 'Planned' and progress to 0 exactly when falsy |
| ProjectModel.ProjectIdempotent | src/models/Project.js:15-24 | wrapping an already wrapped project changes nothing |
| NotificationModel.NotificationOf | src/models/Notification.js:13-20 | copies id, user and message; type, read and timestamp keep a truthy stored value and otherwise default to 'info', false and the current time |
| NotificationModel.NotificationClockIrrelevant | src/models/Notification.js:19 | a notification that has a timestamp does not depend on the clock |
| PerformanceModel.PerformanceOf | src/models/Performance.js:12-18 | copies employee and period; counts and rating default to 0 exactly when falsy |
| PerformanceModel.CompletionRate | src/models/Performance.js:20-23 | 0 for zero tasks assigned, else the rounded percentage of completed over assigned; undefined only for non-numeric counts |
| PerformanceModel.CompletionRateOfCounts | src/models/Performance.js:20-23 | for whole-number counts with at most `total` done, the rate is between 0 and 100 and is the rounded percentage |
| PerformanceModel.SeedRate | src/services/StorageService.js:28-30 | the seeded performance record (15 of 20) has rate 75 |
| JsMath.Round | src/models/Performance.js:22 | `Math.round`: the integer r with r <= x + 0.5 < r + 1 |
| JsMath.PercentExact | src/controllers/PerformanceController.js:27 | the rounded percentage of part over whole is (200·part + whole) div (2·whole) |
| JsMath.Percent | src/models/Performance.js:22 | the percentage of part over whole rounded half up: r <= 100·part/whole + 0.5 < r + 1 |
| JsMath.PercentBounds | src/controllers/PerformanceController.js:27 | a rounded percentage of a part of a whole lies in 0..100, and is 100 for the whole |
| JsMath.PercentMono | src/controllers/PerformanceController.js:27 | a larger part never gives a smaller percentage |
| Json.Merge | src/services/StorageService.js:81 | the spread `{...a, ...b}`: the keys of both, `b`'s values winning |
| Json.NatToString | src/controllers/AIController.js:51-58 | a whole number is displayed as decimal digits without a leading zero |
| Json.NatToStringValue | src/controllers/AIController.js:51-58 | the displayed digits read back as the number |
| Json.NatToStringInjective | src/controllers/AIController.js:51-58 | different numbers display differently |
| TaskController.GetAll | src/controllers/TaskController.js:6-9 | every stored task record wrapped, in order |
| TaskController.GetByEmployee | src/controllers/TaskController.js:11-13 | exactly the tasks whose assignee equals the id, in order, keeping every copy of a kept record and dropping every copy of the others |
| TaskController.GetByProject | src/controllers/TaskController.js:15-17 | exactly the tasks whose project id equals the id strictly, in order, keeping every copy of a kept record and dropping every copy of the others |
| TaskController.ProjectIdStrict | src/controllers/TaskController.js:15-17 | a task stored with the string project id '1' is not a task of project 1 |
| TaskController.StatusUpdates | src/controllers/TaskController.js:23-28 | the status update sets the status, and sets validation to 'Pending' exactly when the status is 'Completed' |
| TaskController.ValidationUpdates | src/controllers/TaskController.js:32-36 | the validation update sets validation, and sets the status to 'In Progress' exactly for 'Rejected' |
| TaskController.UpdateOutcome | src/controllers/TaskController.js:29 | wrapping the update's result fails with a read of null exactly when the id is absent; otherwise it is the merged task |
| TaskController.Create | src/controllers/TaskController.js:19-21 | stores the stamped record and returns it wrapped |
| TaskController.UpdateStatus | src/controllers/TaskController.js:23-30 | writes the merged status update when the id exists, and nothing otherwise |
| TaskController.ValidateTask | src/controllers/TaskController.js:32-38 | writes the merged validation update when the id exists, and nothing otherwise |
| TaskController.CompletedForcesPending | src/controllers/TaskController.js:26-28 | completing a task puts it back in 'Pending' validation, even one already validated |
| TaskController.OtherStatusKeepsValidation | src/controllers/TaskController.js:25 | any other status changes only the status; the validation stays |
| TaskController.RejectedSendsBack | src/controllers/TaskController.js:34-36 | rejection sends the task back to 'In Progress' |
| TaskController.OtherValidationKeepsStatus | src/controllers/TaskController.js:33 | any other validation value leaves the status alone |
| TaskController.SeedTasksRead | src/services/StorageService.js:21-27 | the five seeded tasks read through the controller as the listed tasks |
| ProjectController.GetAll | src/controllers/ProjectController.js:6-9 | every stored project record wrapped, in order |
| ProjectController.GetByManager | src/controllers/ProjectController.js:11-13 | exactly the projects of that manager, in order, keeping every copy of a kept record and dropping every copy of the others |
| ProjectController.GetById | src/controllers/ProjectController.js:15-18 | none exactly when no record has the id; otherwise the first record with it, wrapped |
| ProjectController.Create | src/controllers/ProjectController.js:20-22 | stores the stamped record and returns it wrapped |
| ProjectController.CalculateProgress | src/controllers/ProjectController.js:24-30 | the stored progress of the project (defaulted), or 0 for an unknown project |
| ProjectController.SeedProgressDiffers | src/controllers/ProjectController.js:24-30 | for seeded project 1 the project controller reports 45 while the performance controller computes 33 |
| ProjectController.SeedTaskProgress | src/controllers/PerformanceController.js:23-28 | one of the three seeded tasks of project 1 is completed, so its progress is 33 |
| ProjectController.OneCompleted | src/controllers/PerformanceController.js:26 | a three-task list whose first task alone is 'Completed' counts exactly one completed task |
| PerformanceController.GetEmployeePerformance | src/controllers/PerformanceController.js:7-21 | assigned is the number of the employee's tasks, completed the number of those Validated, period 'Current Sprint', rating 0 |
| PerformanceController.EmployeeRate | src/controllers/PerformanceController.js:7-21 | the employee's rate is defined, in 0..100, 0 without tasks, otherwise the rounded share of Validated tasks |
| PerformanceController.CalculateProjectProgress | src/controllers/PerformanceController.js:23-28 | 0 without tasks, otherwise the rounded share of the project's tasks with status 'Completed'; always in 0..100 |
| NotificationController.ForUser | src/controllers/NotificationController.js:7-8 | exactly the records addressed to the user, in order, keeping every copy of a kept record and dropping every copy of the others |
| NotificationController.GetAll | src/controllers/NotificationController.js:6-9 | the user's records, each wrapped |
| NotificationController.GetUnread | src/controllers/NotificationController.js:11-13 | exactly the user's notifications whose read flag is falsy, in order, keeping every copy of a kept record and dropping every copy of the others |
| NotificationController.NoteRecord | src/controllers/NotificationController.js:15-22 | the record written: user, message, type (default 'info'), unread, timestamped |
| NotificationController.Create | src/controllers/NotificationController.js:15-24 | appends the stamped record and returns it wrapped |
| NotificationController.CreateAddsUnread | src/controllers/NotificationController.js:15-24 | a created notification is unread and becomes the user's last unread one, nothing else changing |
| NotificationController.MarkAsRead | src/controllers/NotificationController.js:26-28 | fails with a read of null for an unknown id, writing nothing; otherwise the record becomes read |
| NotificationController.MarkAsReadIdempotent | src/controllers/NotificationController.js:26-28 | marking touches only that record, leaves it read, and marking again changes nothing |
| NotificationController.Welcome | src/controllers/NotificationController.js:37-38 | the two seeded notices are addressed to the user |
| NotificationController.CheckDeadlines | src/controllers/NotificationController.js:31-40 | a user without notifications gets the two notices; otherwise the store is unchanged |
| NotificationController.SeedIfEmpty | src/controllers/NotificationController.js:31-40 | the stored notifications are kept as a prefix, and afterwards the user has at least one |
| NotificationController.AddWelcome | src/controllers/NotificationController.js:37-38 | the two `create` calls append the welcome and the due-date notice in order |
| NotificationController.SeedIfEmptyAddsTwo | src/controllers/NotificationController.js:35-39 | the user then has exactly an unread 'info' welcome followed by an unread 'warning' due-date notice |
| NotificationController.SeedIfEmptyIdempotent | src/controllers/NotificationController.js:31-40 | checking twice is checking once, whatever the clock says |
| ValidationController.DecisionStatus | src/controllers/ValidationController.js:15 | 'Validated' exactly for 'approve', 'Rejected' for anything else |
| ValidationController.DecisionType | src/controllers/ValidationController.js:21 | 'success' exactly for 'approve', 'warning' for anything else |
| ValidationController.DecisionMessage | src/controllers/ValidationController.js:22-24 | the text quotes the task title and ends in 'validated.' exactly for an approval |
| ValidationController.MessagesDistinguishDecision | src/controllers/ValidationController.js:22-24 | an approval message is never the same text as a rejection message |
| ValidationController.ValidateTask | src/controllers/ValidationController.js:14-31 | fails for an unknown task, writing nothing; otherwise updates the task and appends one notification for its assignee with the decision's type and message |
| ValidationController.DecisionOutcome | src/controllers/ValidationController.js:14-18 | approval validates and keeps the status; any other decision rejects and sends the task back to 'In Progress' |
| ValidationController.GetPendingValidation | src/controllers/ValidationController.js:33-38 | exactly the tasks both Pending and Completed, in order, keeping every copy of a kept record and dropping every copy of the others |
| ValidationController.SeedQueueEmpty | src/controllers/ValidationController.js:33-38 | on the seeded tasks the queue is empty |
| AIController.Recommendations | src/controllers/AIController.js:23-45 | a review warning exactly below 50, a bonus exactly above 90, nothing from 50 to 90, always for the demo employee |
| AIController.EmployeeRate | src/controllers/AIController.js:20 | the demo employee's rate lies in 0..100 |
| AIController.NoTasksMeansReview | src/controllers/AIController.js:14-46 | an employee without tasks is recommended a review |
| AIController.ReportDeterminesFigures | src/controllers/AIController.js:51-58 | the report text determines the total and completed figures |
| EmployeeDashboard.IsTaskLocked | src/pages/modules/TaskPerformance/EmployeeDashboard.jsx:61-65 | locked only if Completed with a completion stamp, and then exactly when more than ten minutes have passed |
| EmployeeDashboard.ControllerTasksNeverLock | src/pages/modules/TaskPerformance/EmployeeDashboard.jsx:61-65 | tasks read through the controller have lost `completedAt`, so they never lock |
| EmployeeDashboard.ActiveTasks | src/pages/modules/TaskPerformance/EmployeeDashboard.jsx:77 | exactly the tasks neither completed nor validated, plus the rejected ones, in order, keeping every copy of a kept record and dropping every copy of the others |
| EmployeeDashboard.ReviewTasks | src/pages/modules/TaskPerformance/EmployeeDashboard.jsx:80 | exactly the Completed tasks pending validation, in order, keeping every copy of a kept record and dropping every copy of the others |
| EmployeeDashboard.HistoryTasks | src/pages/modules/TaskPerformance/EmployeeDashboard.jsx:81 | exactly the Validated tasks, in order, keeping every copy of a kept record and dropping every copy of the others |
| EmployeeDashboard.TabsDisjoint | src/pages/modules/TaskPerformance/EmployeeDashboard.jsx:77-81 | no task appears in two tabs |
| EmployeeDashboard.TabsNotExhaustive | src/pages/modules/TaskPerformance/EmployeeDashboard.jsx:77-81 | a Completed task with validation 'None' appears in no tab |
| EmployeeDashboard.EditableUnlessValidated | src/pages/modules/TaskPerformance/EmployeeDashboard.jsx:306-309 | the status control is offered exactly for tasks not Validated |
| EmployeeDashboard.HandleSelect | src/pages/modules/TaskPerformance/EmployeeDashboard.jsx:141-146 | the current status writes nothing; another status is written through `updateStatus` when the task exists |
| ManagerDashboard.HandleValidation | src/pages/modules/TaskPerformance/ManagerDashboard.jsx:54-61 | writes the validation update ('Validated' for approve, else 'Rejected') and no notification |
| ManagerDashboard.CreatedRecord | src/pages/modules/TaskPerformance/ManagerDashboard.jsx:65-70 | the form's fields with status 'Not Started', validation 'None' and the creation time |
| ManagerDashboard.ManagerView.constructor | src/pages/modules/TaskPerformance/ManagerDashboard.jsx:44-52 | the dialog is closed and the form empty |
| ManagerDashboard.ManagerView.HandleCreateTask | src/pages/modules/TaskPerformance/ManagerDashboard.jsx:63-74 | stores the created record, closes the dialog and resets the form |
| ManagerDashboard.CreatedTaskDefaults | src/pages/modules/TaskPerformance/ManagerDashboard.jsx:65-70 | a created task keeps its title and assignee, and enters neither validation queue |
| ManagerDashboard.HandleDeleteTask | src/pages/modules/TaskPerformance/ManagerDashboard.jsx:76-81 | as written: a confirmed delete fails because the controller has no `delete`, and nothing is removed |
| ManagerDashboard.HandleDeleteTaskIntended | src/pages/modules/TaskPerformance/ManagerDashboard.jsx:76-81 | corrected: a confirmed delete removes the task's records; otherwise nothing changes |
| ManagerDashboard.DeleteFindingWitness | src/pages/modules/TaskPerformance/ManagerDashboard.jsx:76-81 | deleting seeded task 101 would shorten the list, so the failing call loses a real change |
| ManagerDashboard.DeletedShorter | src/services/StorageService.js:88-92 | deleting an id some record has makes the list shorter |
| ManagerDashboard.PendingValidation | src/pages/modules/TaskPerformance/ManagerDashboard.jsx:91 | exactly the tasks pending validation, in order, keeping every copy of a kept record and dropping every copy of the others |
| ManagerDashboard.QueueContainsControllerQueue | src/pages/modules/TaskPerformance/ManagerDashboard.jsx:91 | the controller's queue is the page's queue narrowed to Completed tasks |
| ManagerDashboard.SeedQueues | src/pages/modules/TaskPerformance/ManagerDashboard.jsx:91 | on the seed the page lists tasks 102-105, none completed, while the controller's queue is empty |
| ManagerDashboard.ProjectProgress | src/pages/modules/TaskPerformance/ManagerDashboard.jsx:233-235 | 0 without tasks, else the rounded share of the project's tasks completed or validated; in 0..100 |
| ManagerDashboard.ProgressAtLeastController | src/pages/modules/TaskPerformance/ManagerDashboard.jsx:233-235 | the page never shows less progress than the performance controller |
| NotificationDropdown.UnreadCount | src/components/ui/NotificationDropdown.jsx:33 | the number of unread entries, at most the list length |
| NotificationDropdown.UnreadZeroIff | src/components/ui/NotificationDropdown.jsx:33 | the count is zero exactly when every entry is read |
| NotificationDropdown.AllRead | src/components/ui/NotificationDropdown.jsx:46-48 | every entry becomes read, nothing else changes |
| NotificationDropdown.ReadOne | src/components/ui/NotificationDropdown.jsx:50-52 | exactly the entries with the id become read |
| NotificationDropdown.Without | src/components/ui/NotificationDropdown.jsx:54-56 | exactly the entries without the id remain, in order |
| NotificationDropdown.Dropdown.constructor | src/components/ui/NotificationDropdown.jsx:7-30 | the menu starts with the six demonstration entries |
| NotificationDropdown.Dropdown.MarkAllRead | src/components/ui/NotificationDropdown.jsx:46-48 | the items become all read |
| NotificationDropdown.Dropdown.MarkRead | src/components/ui/NotificationDropdown.jsx:50-52 | the entry with the id becomes read |
| NotificationDropdown.Dropdown.Dismiss | src/components/ui/NotificationDropdown.jsx:54-56 | the entry with the id is removed |
| NotificationDropdown.InitialUnread | src/components/ui/NotificationDropdown.jsx:7-33 | three of the six initial entries are unread |
| NotificationDropdown.MarkAllReadClears | src/components/ui/NotificationDropdown.jsx:46-48 | after marking all read the badge is zero and the ids are unchanged |
| NotificationDropdown.MarkReadIdempotent | src/components/ui/NotificationDropdown.jsx:50-52 | marking twice is marking once |
| NotificationDropdown.MarkReadUnknown | src/components/ui/NotificationDropdown.jsx:50-52 | marking an absent id changes nothing |
| NotificationDropdown.MarkReadNeverRaises | src/components/ui/NotificationDropdown.jsx:50-52 | marking never raises the unread count |
| NotificationDropdown.DismissIdempotent | src/components/ui/NotificationDropdown.jsx:54-56 | dismissing twice is dismissing once |
| RoleContext.FindIn | src/contexts/RoleContext.jsx:56 | the first role with the id, or none exactly when no role has it |
| RoleContext.InitialRole | src/contexts/RoleContext.jsx:53-60 | the stored role when it names a known role, otherwise the administrator |
| RoleContext.Session.constructor | src/contexts/RoleContext.jsx:53-60 | the session starts in the initial role for what was stored |
| RoleContext.Session.SwitchRole | src/contexts/RoleContext.jsx:62-68 | a known id becomes the current role and is stored; an unknown id changes nothing |
| RoleContext.RoleIdsDistinct | src/contexts/RoleContext.jsx:7-48 | the four roles have distinct ids |
| RoleContext.SwitchPersists | src/contexts/RoleContext.jsx:53-68 | a switched-to role is the one restored on reload |
| RoleContext.UnknownIsAdmin | src/contexts/RoleContext.jsx:53-60 | an unknown stored id restores the administrator |
| RoleGuard.Guard | src/components/ui/RoleGuard.jsx:12-44 | renders the children exactly when the roles include 'all' or the current role; otherwise the denial card naming the role |
| RoleGuard.DefaultDenies | src/components/ui/RoleGuard.jsx:12 | the default empty role list denies every role |
| RoleGuard.GuardMonotone | src/components/ui/RoleGuard.jsx:16 | adding roles to the list never denies a role admitted before |
| RoleGuard.AllAdmitsEveryone | src/components/ui/RoleGuard.jsx:16 | a list holding 'all' admits every role |
| Navigation.AllItems | src/config/navigation.js:23-65 | exactly the entries of all sections |
| Navigation.RouteFor | src/router/index.jsx:29-56 | the first route with the path, or none exactly when no route has it |
| Navigation.RouteAdmits | src/router/index.jsx:29-56 | an unguarded route admits every role, a guarded one the roles its guard allows; SidebarAgreesWithRouter ties it to the navigation |
| Navigation.AllNavigationItems | src/config/navigation.js:23-65 | the table's fifteen entries in order |
| Navigation.NavigationWellFormed | src/config/navigation.js:23-65 | entry ids are distinct and no role list is empty |
| Navigation.NavigationPathsDistinct | src/config/navigation.js:23-65 | no two entries share a path |
| Navigation.OpenEntries | src/config/navigation.js:23-65 | the dashboard, the profile and the notifications are open to all |
| Navigation.AdminEverywhere | src/config/navigation.js:23-65 | every entry admits the administrator |
| Navigation.RouteForFirst | src/router/index.jsx:29-56 | the first route with a path is the one served |
| Navigation.RouterMatchesNavigation | src/router/index.jsx:29-56 | every entry's path is routed, guarded by the entry's roles or unguarded when open to all |
| Navigation.SidebarAgreesWithRouter | src/router/index.jsx:29-56 | a role sees an entry in the navigation exactly when the router lets it open that page |
| Sidebar.FilteredNavigation | src/components/layout/Sidebar.jsx:73-80 | sections restricted to the role's entries, empty sections dropped, in order |
| Sidebar.ShownSectionsComeFromTable | src/components/layout/Sidebar.jsx:73-80 | every shown section is a table section with its entries filtered by role |
| Sidebar.ItemShownIff | src/components/layout/Sidebar.jsx:76-78 | an entry is shown exactly when it is in the table and its roles admit the role |
| Sidebar.AdminSeesEverything | src/components/layout/Sidebar.jsx:73-80 | the administrator sees the whole table |
| Sidebar.SystemHiddenFromEmployee | src/components/layout/Sidebar.jsx:76-78 | the employee sees no entry of the System section |
| Sidebar.OtherSectionsShownToEmployee | src/components/layout/Sidebar.jsx:76-80 | the employee keeps an entry in each of the four other sections |
| Sidebar.KeptSection | src/components/layout/Sidebar.jsx:76-80 | a section with one admitted entry is kept |
| Sidebar.DropsOnlyLast | src/components/layout/Sidebar.jsx:80 | when only the last section is empty, exactly that one is dropped |
| Sidebar.EmployeeLosesSystem | src/components/layout/Sidebar.jsx:73-80 | the employee's navigation is the first four sections, without System |
| Breadcrumb.FindItem | src/components/ui/Breadcrumb.jsx:19-23 | the first entry of a section with the path, or none exactly when no entry has it |
| Breadcrumb.FindInSections | src/components/ui/Breadcrumb.jsx:18-25 | the first entry of the flattened table with the path, or none exactly when no entry has it |
| Breadcrumb.SegmentCrumbs | src/components/ui/Breadcrumb.jsx:28-35 | one crumb per segment, labelled from the segment and linking to the path up to it |
| Breadcrumb.UseBreadcrumbs | src/components/ui/Breadcrumb.jsx:12-38 | the loop builds Home, then the matching entry or the segment crumbs |
| Breadcrumb.SearchSections | src/components/ui/Breadcrumb.jsx:18-25 | the nested loop over sections and entries stops at the entry the first-match search finds, or at none |
| Breadcrumb.StartsAtHome | src/components/ui/Breadcrumb.jsx:13-15 | every trail starts at Home, and '/' has nothing else |
| Breadcrumb.NavigationPathCrumbs | src/components/ui/Breadcrumb.jsx:18-25 | a table path gets Home and exactly its entry |
| Breadcrumb.FallbackCrumbs | src/components/ui/Breadcrumb.jsx:28-35 | off the table, one crumb per segment, the last linking to the path itself |
| Breadcrumb.RendersIff | src/components/ui/Breadcrumb.jsx:44 | the trail is drawn exactly when the path is not '/' and names an entry or has a segment |
| Breadcrumb.Renders | src/components/ui/Breadcrumb.jsx:44 | the trail is drawn when it has more than one crumb; RendersIff characterises when that happens |
| Text.Trim | src/components/ui/AIAssistant.jsx:62 | `trim` is the input with its leading and trailing spaces removed: a slice with only spaces around it, no space at either end, empty exactly for blank input |
| Text.SplitJoin | src/components/ui/Breadcrumb.jsx:28-30 | splitting a joined list of separator-free parts returns the parts |
| Text.PathSegmentsOfJoin | src/components/ui/Breadcrumb.jsx:28 | a path built from non-empty segments splits back into them |
| Text.PathSegments | src/components/ui/Breadcrumb.jsx:28 | `split('/').filter(Boolean)`: only non-empty segments without a slash |
| Text.Split | src/components/ui/Breadcrumb.jsx:28 | `split`: at least one piece, none containing the separator |
| Text.Join | src/components/ui/Breadcrumb.jsx:30 | `join`: the result starts with the first part |
| Text.ContainsAt | src/components/ui/AIAssistant.jsx:23-28 | `includes` holds exactly when the text occurs at some position |
| Text.CapitalizeWords | src/components/ui/Breadcrumb.jsx:33 | a character is upper-cased exactly when it starts the string or follows a non-word character |
| Text.SegmentLabel | src/components/ui/Breadcrumb.jsx:31-33 | hyphens become spaces, and word starts are upper-cased |
| PlaceholderPage.DisplayTitle | src/pages/PlaceholderPage.jsx:10-14 | a non-empty title verbatim; otherwise the path's title; 'Page' when the path has no segment |
| PlaceholderPage.PathTitle | src/pages/PlaceholderPage.jsx:10-14 | the labels of the path's segments joined by the separator; empty exactly when the path has no segment |
| PlaceholderPage.TitleOfSegments | src/pages/PlaceholderPage.jsx:10-14 | a path of segments is titled by their labels joined by the dash separator |
| PlaceholderPage.SingleSegmentTitle | src/pages/PlaceholderPage.jsx:10-14 | a one-segment path is titled by its label |
| PlaceholderPage.RootTitle | src/pages/PlaceholderPage.jsx:14 | '/' is titled 'Page' |
| UserManagement.Filtered | src/pages/modules/UserManagement.jsx:127-132 | exactly the users matching the search and the role filter, in order |
| UserManagement.NoFilterListsAll | src/pages/modules/UserManagement.jsx:127-132 | an empty search with filter 'all' lists every user |
| UserManagement.ActiveCount | src/pages/modules/UserManagement.jsx:134 | the number of active users, at most the total |
| UserManagement.PendingCount | src/pages/modules/UserManagement.jsx:135 | the number of pending users, at most the total |
| UserManagement.CountsDisjoint | src/pages/modules/UserManagement.jsx:134-135 | active and pending together never exceed the total |
| UserManagement.DefaultCounts | src/pages/modules/UserManagement.jsx:14-25 | the ten default users include eight active and one pending |
| UserManagement.DefaultActive | src/pages/modules/UserManagement.jsx:14-25 | eight default users are active |
| UserManagement.DefaultPending | src/pages/modules/UserManagement.jsx:14-25 | one default user is pending |
| UserManagement.CreateRoleType | src/pages/modules/UserManagement.jsx:102-107 | the administrator creates HR accounts, anyone else Employee accounts |
| UserManagement.CreatorsAreAdminAndHr | src/pages/modules/UserManagement.jsx:106 | of the four roles, the administrator and the HR manager get the create button, the others do not |
| UserManagement.FirstChar | src/pages/modules/UserManagement.jsx:144 | `charAt(0)`: a prefix of at most one character, exactly one for a non-empty string |
| UserManagement.NewUser | src/pages/modules/UserManagement.jsx:141-163 | the next id, the trimmed full name, upper-cased initials, the form's e-mail and department or their defaults, pending, never logged in |
| UserManagement.WordInitials | src/pages/modules/UserManagement.jsx:169 | one character per non-empty word, its first, in word order; empty pieces give nothing |
| UserManagement.EditAvatar | src/pages/modules/UserManagement.jsx:165-175 | the upper-cased first characters of the first two non-empty words of the name; fewer when it has fewer words |
| UserManagement.Edited | src/pages/modules/UserManagement.jsx:165-175 | the edit form's fields replace the user's, with id and last login kept and a new avatar |
| UserManagement.EditedList | src/pages/modules/UserManagement.jsx:165-175 | exactly the users with the edited id are edited |
| UserManagement.Directory.constructor | src/pages/modules/UserManagement.jsx:14-25 | the page starts with the default users and an empty form |
| UserManagement.Directory.CreateUser | src/pages/modules/UserManagement.jsx:141-163 | the new user goes first, the form is reset and the message names the role and user; ids stay dense |
| UserManagement.Directory.EditSave | src/pages/modules/UserManagement.jsx:165-175 | the edited list replaces the users and the message names the user |
| UserManagement.DefaultIdsDense | src/pages/modules/UserManagement.jsx:14-25 | the default ids are 1 to 10 |
| UserManagement.CreateCounts | src/pages/modules/UserManagement.jsx:141-163 | creating adds one pending user and no active one |
| UserManagement.EditKeepsOthers | src/pages/modules/UserManagement.jsx:165-175 | users with another id stay in the list |
| UserManagement.EditAvatarTwoWords | src/pages/modules/UserManagement.jsx:165-175 | a two-word name's avatar is its two upper-cased initials |
| UserManagement.EditAvatarOneWord | src/pages/modules/UserManagement.jsx:169 | a one-word name's avatar is its one upper-cased initial |
| UserManagement.EditAvatarDoubleSpace | src/pages/modules/UserManagement.jsx:169 | a doubled space between two words gives the same avatar as a single one |
| EnterpriseManagement.Visible | src/pages/modules/EnterpriseManagement.jsx:115-121 | the administrator sees all companies, any other role exactly those of its company id |
| EnterpriseManagement.Searched | src/pages/modules/EnterpriseManagement.jsx:123-126 | exactly the visible companies whose name or industry contains the search, ignoring case |
| EnterpriseManagement.TotalAppend | src/pages/modules/EnterpriseManagement.jsx:128 | the employee total of a split list is the sum of the parts' totals |
| EnterpriseManagement.TotalEmployees | src/pages/modules/EnterpriseManagement.jsx:128 | for non-negative head counts the total is non-negative and at least each company's count |
| EnterpriseManagement.ActiveCount | src/pages/modules/EnterpriseManagement.jsx:129 | the number of active companies, at most the total |
| EnterpriseManagement.ColorOf | src/pages/modules/EnterpriseManagement.jsx:137 | the colour of the first badge with the industry, or 'neutral' |
| EnterpriseManagement.VisibleIndustries | src/pages/modules/EnterpriseManagement.jsx:132-138 | the fixed badges for the administrator; one badge per visible company otherwise |
| EnterpriseManagement.NewCompany | src/pages/modules/EnterpriseManagement.jsx:146-158 | id and company id are the list length plus one, no employees, on trial, with the form's fields |
| EnterpriseManagement.Directory.constructor | src/pages/modules/EnterpriseManagement.jsx:16-24 | the page starts with the seven default companies and an empty form |
| EnterpriseManagement.Directory.CreateCompany | src/pages/modules/EnterpriseManagement.jsx:144-164 | the new company goes first, the form is reset and the message names it; ids stay dense and equal to company ids |
| EnterpriseManagement.DefaultWellKeyed | src/pages/modules/EnterpriseManagement.jsx:16-24 | the default ids are 1 to 7, each equal to its company id |
| EnterpriseManagement.TenantSeesOwnCompany | src/pages/modules/EnterpriseManagement.jsx:119-121 | a tenant role sees its own company and nothing else |
| EnterpriseManagement.CreateInvisibleToTenants | src/pages/modules/EnterpriseManagement.jsx:144-164 | creating a company changes no other tenant's view |
| EnterpriseManagement.CreateKeepsTotal | src/pages/modules/EnterpriseManagement.jsx:128 | a new company leaves the employee total unchanged |
| EnterpriseManagement.ActiveSplit | src/pages/modules/EnterpriseManagement.jsx:129 | the active count of two lists put together is the sum of their counts |
| EnterpriseManagement.ActiveCons | src/pages/modules/EnterpriseManagement.jsx:129 | a company in front adds one to the active count exactly when it is active |
| EnterpriseManagement.CreateKeepsActive | src/pages/modules/EnterpriseManagement.jsx:129 | a newly created company, being on trial, leaves the active count unchanged |
| EnterpriseManagement.DefaultActive | src/pages/modules/EnterpriseManagement.jsx:129 | five of the seven starting companies are active |
| EnterpriseManagement.EmptySearchKeepsAll | src/pages/modules/EnterpriseManagement.jsx:123-126 | an empty search keeps every visible company |
| EnterpriseManagement.HrView | src/pages/modules/EnterpriseManagement.jsx:119-138 | the HR manager sees FinServe Global only, with a violet Finance badge |
| EmployeeProfile.VisibleEmployees | src/pages/modules/EmployeeProfile.jsx:256-261 | the employee role sees its own profile only; other roles see everyone |
| EmployeeProfile.Departments | src/pages/modules/EmployeeProfile.jsx:263 | every department of the list, each once |
| EmployeeProfile.DepartmentsByFirstAppearance | src/pages/modules/EmployeeProfile.jsx:263 | departments appear in the order the list first names them |
| EmployeeProfile.DepartmentsInOrder | src/pages/modules/EmployeeProfile.jsx:16-225 | the six departments, from Engineering to Finance |
| EmployeeProfile.Filtered | src/pages/modules/EmployeeProfile.jsx:265-271 | exactly the visible employees whose name, e-mail or department contains the search and whose department passes the filter |
| EmployeeProfile.EmployeeFindsOnlySelf | src/pages/modules/EmployeeProfile.jsx:256-271 | whatever the search, the employee role finds only its own profile |
| EmployeeProfile.DepartmentFilter | src/pages/modules/EmployeeProfile.jsx:265-271 | with an empty search, a department filter keeps exactly that department |
| AIAssistant.GetResponse | src/components/ui/AIAssistant.jsx:22-29 | each reply exactly when its keyword group matches and no earlier group does (optim, then bottleneck/block, then summary/pending/approval, then draft/rule/policy); default exactly when no keyword occurs |
| AIAssistant.OptimFirst | src/components/ui/AIAssistant.jsx:24 | 'optim' wins over every other keyword |
| AIAssistant.SuggestionsRouted | src/components/ui/AIAssistant.jsx:7-29 | each of the four chips gets its own reply: optimise, bottleneck, summary, draft |
| AIAssistant.Outgoing | src/components/ui/AIAssistant.jsx:62-63 | a chip's text as is, else the trimmed input; nothing exactly for blank input |
| AIAssistant.Chat.constructor | src/components/ui/AIAssistant.jsx:42-50 | the chat starts with the greeting, empty input, not typing |
| AIAssistant.Chat.HandleSend | src/components/ui/AIAssistant.jsx:61-71 | a blank send changes nothing; otherwise the message is appended, the input cleared and typing shown |
| AIAssistant.Chat.Answer | src/components/ui/AIAssistant.jsx:73-80 | typing stops and the routed canned reply is appended |
| AIAssistant.BlankSendsNothing | src/components/ui/AIAssistant.jsx:62-63 | blank input with no chip sends nothing |

## Left out

- Browser storage: `localStorage` and JSON (de)serialisation are not
  modelled. The store keeps its tables in memory, and the persisted
  contents are a constructor parameter. Values that did not survive a
  JSON round trip (functions, `undefined` fields) are not modelled.
- Asynchrony: the `await`s, the loading spinners, `refreshTasks` and
  the React hooks that re-read data are left out. Each handler is
  modelled as its effect on the store.
- Rendering: JSX, icons, CSS classes, modals, `formatMessage` and the
  chat's Markdown formatting are left out.
- The assistant's reply delay (`setTimeout` with `Math.random`) and the
  success messages' four-second clearing timers are left out. The reply
  is a separate method, `AIAssistant.Chat.Answer`.
- The assistant's canned reply texts are represented by the `Reply`
  values they are chosen by, not by their full Markdown text.
- `Date.now()`, `new Date().toISOString()`, `toLocaleTimeString` and
  `toLocaleDateString` are parameters supplied by the caller.
- `window.confirm` is a boolean parameter.
- The role context's `typeof window` test is not modelled. The model
  always reads the stored role, as the browser does.
- `toLowerCase` and `toUpperCase` are modelled on ASCII letters only.
- Number display is modelled for whole numbers. The display of
  fractions in template literals is not.
- The employee directory keeps only the fields the page filters on.
  Phone, location, skills and the other profile fields are not modelled.
- The router's catch-all route and its layout nesting are not modelled.
  Only the guarded page routes are.
- AIController.GenerateTeamRecommendations and
  AIController.GenerateReport carry no contract of their own. They are
  specified through AIController.Recommendations,
  AIController.NoTasksMeansReview and
  AIController.ReportDeterminesFigures.
- PerformanceModel.CompletionRate: for counters that are not numbers
  the model returns no rate, while JavaScript would coerce them or give
  `NaN`. Coercion of strings and booleans to numbers is not modelled.
- Breadcrumb.Breadcrumbs is the specification that
  Breadcrumb.UseBreadcrumbs is proved against. Its properties are the
  lemmas beside it.

## Findings

| source | as written | input that shows it | evidently intended | confidence | as-written member | corrected member |
|---|---|---|---|---|---|---|
| src/pages/modules/TaskPerformance/ManagerDashboard.jsx:76-81 | `handleDeleteTask` calls `taskController.delete`, which the task controller does not define, so a confirmed deletion throws and removes nothing | confirming the deletion of seeded task 101 | delete the task's records from the store through the storage service | not executed | ManagerDashboard.HandleDeleteTask, ManagerDashboard.DeleteFindingWitness | ManagerDashboard.HandleDeleteTaskIntended |
