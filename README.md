# DGMP admin console core, modelled in Dafny

DGMP is a data-governance admin console built with Next.js and an ORM. Its server side is a
set of CRUD routes that share a few libraries. This project models those libraries and the
routes with non-trivial logic, and proves properties of the model. The libraries are:

- the JSON envelope and bearer-token helpers;
- authentication and role-based permission checks;
- ORM error translation and pagination;
- the request-body schemas.

The routes are:

- the login ladder;
- the category tree;
- the permission grouping.

The client-side authentication store is modelled too.

One Dafny module per source file:

| module | file | models |
|---|---|---|
| `ApiResponse` | `api_response.dfy` | `lib/api-response.ts`: token extraction, `getAuthUser`, the five response helpers |
| `Auth` | `auth.dfy` | `lib/auth.ts`: `requireAuth`, `requirePermission`, `hasPermission`, `hasAnyPermission`, `hasAllPermissions`, `isAdmin` |
| `DbUtils` | `db_utils.dfy` | `lib/db-utils.ts`: `handlePrismaError`, `calculatePagination`, `createPaginationParams` |
| `Validations` | `validations.dfy` | `lib/validations.ts`: every zod schema as an acceptance predicate over JavaScript values |
| `CategoryTree` | `category_tree.dfy` | `app/api/data-element-categories/route.ts`: `buildTree` and `GET` |
| `PermissionGroups` | `permission_groups.dfy` | `app/api/permissions/route.ts`: the module filter, the `reduce` grouping and `GET` |
| `AuthStore` | `auth_store.dfy` | `lib/store/auth.ts`: `useAuthStore` as a class, with its persisted slice |
| `Login` | `login.dfy` | `app/api/auth/login/route.ts`: the `POST` ladder, the token payload, the `lastLoginAt` write |
| `Decimal` | `decimal.dfy` | `bigint.toString()` and `BigInt(text)` for the user id carried in tokens |
| `Types`, `Wrappers` | `types.dfy`, `wrappers.dfy` | record shapes of `lib/types.ts`; `Option`/`Result` for `null` and `throw` |

The foreign libraries are function-typed parameters:

- `jwt.verify` is a function yielding `Decoded(payload)` or `Thrown`;
- `jwt.sign` (through `createToken`) is a `JwtPayload -> string` function;
- bcrypt's `verifyPassword` is a `(string, string) -> bool` function;
- the zod e-mail check and `z.coerce.date()` validity are predicates.

Database reads are inputs, such as the fetched rows or the user table. The one database write
that matters, `lastLoginAt`, is a field update on a `UserTable` class.

Strings are sequences of characters. Where zod or JavaScript measure `length`, the model counts
UTF-16 code units (`Validations.Utf16Length`).

## Model

| member | source | states |
|---|---|---|
| ApiResponse.VerifyToken | lib/api-response.ts:11-17 | `verifyToken` yields the verifier's payload exactly when the verifier decodes, and `null` exactly when it throws |
| ApiResponse.GetTokenFromRequest | lib/api-response.ts:19-25 | a token is found exactly when the header starts with "Bearer ", and the header is then "Bearer " followed by the token |
| ApiResponse.BearerRoundTrip | lib/api-response.ts:19-25 | the token a client puts after "Bearer " is exactly the token read back |
| ApiResponse.OtherSchemesYieldNoToken | lib/api-response.ts:19-25 | no token for a missing header, a lower-case "bearer", another scheme, or "Bearer" without its space |
| ApiResponse.GetAuthUser | lib/api-response.ts:27-31 | an authenticated user exists exactly when the header carries a non-empty bearer token that the verifier decodes |
| ApiResponse.NoTokenNoVerification | lib/api-response.ts:27-31 | a missing or empty token gives `null` whatever the verifier would say |
| ApiResponse.UnauthorizedResponse | lib/api-response.ts:33-38 | status 401, failure body, the given message or the default "未授权访问" |
| ApiResponse.ForbiddenResponse | lib/api-response.ts:40-45 | status 403, failure body, the given message or the default "权限不足" |
| ApiResponse.SuccessResponse | lib/api-response.ts:47-53 | status 200, `success: true`, the data and message as given, no error |
| ApiResponse.ErrorResponse | lib/api-response.ts:55-60 | failure body with the message; the status is the given one or 500 |
| ApiResponse.ValidationErrorResponse | lib/api-response.ts:62-67 | status 400, error "验证失败", and the field errors as given |
| Auth.RequireAuth | lib/auth.ts:4-10 | fails with UNAUTHORIZED exactly when `getAuthUser` finds nobody; otherwise returns that payload |
| Auth.RequirePermission | lib/auth.ts:12-47 | a missing user is USER_NOT_FOUND; otherwise success exactly when some role carries the code, else FORBIDDEN; success returns the user |
| Auth.HasPermission | lib/auth.ts:49-56 | true exactly when `requirePermission` would not throw: the user exists and holds the code |
| Auth.CodesOf | lib/auth.ts:80-85 | a code is collected exactly when some permission of the list has it |
| Auth.CodesOfRolesMembers | lib/auth.ts:80-85 | the union over roles holds a code exactly when some role has a permission with it |
| Auth.GrantedIsUnion | lib/auth.ts:36-40 | the nested `some` of `requirePermission` agrees with membership in the collected set |
| Auth.CollectPermissionCodes | lib/auth.ts:80-85 | the two `forEach` loops build exactly the set of codes some role grants |
| Auth.HasAnyPermission | lib/auth.ts:58-88 | false for a missing user; otherwise true exactly when some requested code is granted |
| Auth.HasAllPermissions | lib/auth.ts:90-120 | false for a missing user; otherwise true exactly when every requested code is granted |
| Auth.SingleCodeChecksAgree | lib/auth.ts:49-120 | for a single code the three checks agree; the empty list is false for any-of and true (for an existing user) for all-of |
| Auth.MoreCodesMonotone | lib/auth.ts:58-120 | adding codes can only turn any-of on and all-of off |
| Auth.IsAdmin | lib/auth.ts:122-124 | `isAdmin`: roles are present and some role's code is "admin" (its consequences are stated by `IsAdminByCodes`) |
| Auth.IsAdminByCodes | lib/auth.ts:122-124 | absent roles are not admin; otherwise admin exactly when "admin" is among the role codes |
| Auth.RoleCodeSet | lib/auth.ts:122-124 | the codes of a role list are exactly the codes some role in it has |
| DbUtils.HandlePrismaError | lib/db-utils.ts:3-40 | P2002 gives 409, P2025 gives 404, P2003 and validation errors give 400, other known codes and other errors give 500 (each as an if-and-only-if); the messages are "数据已存在，请勿重复创建" (P2002), "记录不存在" (P2025), "关联数据不存在" (P2003) and "数据验证失败" (validation error) |
| DbUtils.MessageIdentifiesOutcome | lib/db-utils.ts:3-40 | equal messages mean equal outcomes: the six messages are pairwise different |
| DbUtils.CalculatePagination | lib/db-utils.ts:42-46 | take is the page size (default 10) and skip is (page - 1) times it (page default 1), unclamped |
| DbUtils.DefaultWindow | lib/db-utils.ts:42-46 | with no arguments the window is skip 0, take 10 |
| DbUtils.PagesTile | lib/db-utils.ts:42-46 | page 1 starts at row 0 and each page starts where the previous one ends |
| DbUtils.PageBelowOneSkipsNegative | lib/db-utils.ts:42-46 | a page below 1 yields a negative skip |
| DbUtils.EveryRowOnExactlyOnePage | lib/db-utils.ts:42-46 | for a positive page size and any page number (including the unclamped ones below 1), row i is on page p exactly when p = i / size + 1 |
| DbUtils.TotalPages | app/api/data-elements/route.ts:56 | `Math.ceil(total / pageSize)`: the pages cover all rows, and one page fewer would not |
| DbUtils.LastPageHoldsLastRow | lib/db-utils.ts:42-46 | the last reported page contains the last row, and the page after it starts past the end |
| DbUtils.CreatePaginationParams | lib/db-utils.ts:48-68 | the window is `calculatePagination`'s; an ordering is set exactly when `sortBy` is a non-empty string, with the given direction or "desc" |
| Validations.LoginAccepts | lib/validations.ts:3-6 | `loginSchema`: an object with a string username of at least 1 unit and a string password of at least 6 |
| Validations.RegisterAccepts | lib/validations.ts:8-13 | `registerSchema`: username 1..50 units, password 6..100, an optional e-mail the e-mail check accepts and an optional real name of at most 50 |
| Validations.CreateUserAccepts | lib/validations.ts:15-21 | `createUserSchema`: as registration, but e-mail and real name may be null, plus optional BigInt role ids |
| Validations.UpdateUserAccepts | lib/validations.ts:23-28 | `updateUserSchema`: every field optional; e-mail and real name nullable, status an integer 0..1, BigInt role ids |
| Validations.DataElementAccepts | lib/validations.ts:30-42 | `dataElementSchema`: code and name bounds, nullable BigInt references, a positive integer length, 255-unit default value and value range |
| Validations.QualityRuleAccepts | lib/validations.ts:44-55 | `qualityRuleSchema`: code and name bounds, one of six rule types, 100-unit source, table and field names, one of three severities |
| Validations.MappingRuleAccepts | lib/validations.ts:57-66 | `mappingRuleSchema`: code and name bounds, four endpoint names of 1..100 units, one of three mapping types |
| Validations.TaskAccepts | lib/validations.ts:68-79 | `taskSchema`: code and name bounds, one of five task types, one of three priorities, nullable BigInt references, valid dates when given |
| Validations.ExternalDataSourceAccepts | lib/validations.ts:81-89 | `externalDataSourceSchema`: code and name bounds, one of three source types, a record connection config, 255-unit endpoint and key |
| Validations.SyncTaskAccepts | lib/validations.ts:91-102 | `syncTaskSchema` as written: the sync fields plus a `sourceId` that is a BigInt value |
| Validations.SyncTaskAcceptsIntended | lib/validations.ts:91-102 | `syncTaskSchema` as evidently intended: the same fields, with `sourceId` a BigInt or an integer number |
| Validations.StringFieldIssue | lib/validations.ts:3-6 | no issue exactly when the key is present and holds a string of at least the minimum length; a string that is too short reports the field's own message |
| Validations.LoginFirstIssue | lib/validations.ts:3-6 | no issue exactly when the login schema accepts; a failing username is reported before the password (an empty one as "用户名不能为空"); with a valid username, a password string under 6 units reports "密码至少6位" |
| Validations.RegisteredCredentialsPassLogin | lib/validations.ts:3-13 | every body the register schema accepts is accepted by the login schema |
| Validations.LoginHasNoPasswordCap | lib/validations.ts:3-13 | a 101-character password passes login but not registration |
| Validations.RegisterBodiesAreCreateUserBodies | lib/validations.ts:8-21 | a register body without `roleIds` is a valid create-user body |
| Validations.NullEmailOnlyForCreateUser | lib/validations.ts:8-21 | a null e-mail passes create-user and fails register |
| Validations.UpdateUserStatusIsZeroOrOne | lib/validations.ts:26 | a numeric status passes exactly when it is 0 or 1 and the rest of the body passes |
| Validations.EntityCodeAndNameBounds | lib/validations.ts:30-102 | every entity schema bounds `code` to 1..50 and `name` to 1..100 UTF-16 units |
| Validations.TaskTypeAndPriority | lib/validations.ts:68-79 | a task has one of five types, a priority (when given) of three, and a valid start time when given |
| Validations.QualityRuleTypeAndSeverity | lib/validations.ts:44-55 | a quality rule has one of six types and a severity (when given) of three |
| Validations.MappingRuleEndpoints | lib/validations.ts:57-66 | the four system and table names are 1..100 units; a mapping type, when given, is one of three |
| Validations.DataElementLengthPositive | lib/validations.ts:36 | a given, non-null `length` is a number of at least 1 |
| Validations.SyncTaskRequirements | lib/validations.ts:91-102 | a sync task has a source id, a target type of 1..50 units, one of five frequencies and one of three sync types |
| Validations.SyncTaskRejectsEveryJsonBody | lib/validations.ts:96 | no value that `JSON.parse` can produce passes the sync-task schema as written |
| Validations.IntendedSyncTaskAcceptsJson | lib/validations.ts:91-102 | a JSON body with `sourceId: 1` is valid JSON, passes the intended schema and fails the written one |
| Validations.IntendedSyncTaskWidens | lib/validations.ts:96 | the intended schema accepts everything the written one does |
| CategoryTree.ChildrenOf | app/api/data-element-categories/route.ts:27 | the filter keeps no more categories than it was given (membership is stated by `ChildOf`, order by `ChildrenOfKeepsOrder`) |
| CategoryTree.ChildrenOfKeepsOrder | app/api/data-element-categories/route.ts:27 | filtering a concatenation is the concatenation of the filtered parts, so kept rows stay in input order |
| CategoryTree.ChildOf | app/api/data-element-categories/route.ts:27 | a category is a child of a parent exactly when it is in the list and names that parent |
| CategoryTree.Build | app/api/data-element-categories/route.ts:25-32 | `buildTree(parent)` with a fuel bound: the children of `parent`, each given the forest under its id (stated by `TreeUnfolds` and `FuelAdequate`) |
| CategoryTree.Attach | app/api/data-element-categories/route.ts:28-31 | the map yields one node per child |
| CategoryTree.AttachAt | app/api/data-element-categories/route.ts:28-31 | node k keeps child k's row and carries as `children` the forest under child k's id |
| CategoryTree.ChainLength | app/api/data-element-categories/route.ts:25-32 | with unique ids, a chain of parent links from a root is no longer than the list |
| CategoryTree.ChainUnique | app/api/data-element-categories/route.ts:25-32 | with unique ids, two chains from a root ending at the same id are the same chain |
| CategoryTree.FuelAdequate | app/api/data-element-categories/route.ts:25-32 | with unique ids, any fuel of at least the remaining depth bound gives the same forest |
| CategoryTree.BuildTreeTerminates | app/api/data-element-categories/route.ts:25-34 | with unique ids the recursion never runs out: more fuel changes nothing |
| CategoryTree.BuildTree | app/api/data-element-categories/route.ts:34 | `buildTree(null)` with fuel the number of categories, which never runs out (stated by `BuildTreeTerminates`, `TreeRoots` and `TreeCoverage`) |
| CategoryTree.TreeDepthBounded | app/api/data-element-categories/route.ts:25-34 | the forest is never deeper than the number of categories |
| CategoryTree.TreeUnfolds | app/api/data-element-categories/route.ts:25-32 | below any rooted category the forest is the filter's children, in order, each with its own row and the forest under its id |
| CategoryTree.TreeRoots | app/api/data-element-categories/route.ts:34 | the top level lists exactly the parentless categories, in input order, each keeping its row |
| CategoryTree.CountBuild | app/api/data-element-categories/route.ts:25-32 | below a chain, an id occurs once if the category lies below the chain and never otherwise |
| CategoryTree.CountAttach | app/api/data-element-categories/route.ts:28-31 | across the mapped children, an id occurs once if it lies at or below one of them and never otherwise |
| CategoryTree.TreeCoverage | app/api/data-element-categories/route.ts:25-34 | every category whose parent links reach a root appears exactly once in the forest; every other id never appears |
| CategoryTree.RootedParentPresent | app/api/data-element-categories/route.ts:25-34 | a rooted category that has a parent finds that parent in the list |
| CategoryTree.DanglingParentExcluded | app/api/data-element-categories/route.ts:25-34 | a category whose parent is not in the list is dropped from the forest |
| CategoryTree.GetCategories | app/api/data-element-categories/route.ts:5-36 | 401 without an authenticated user; otherwise 200 with the forest `buildTree(null)` |
| PermissionGroups.Selects | app/api/permissions/route.ts:15 | `module ? { module } : {}`: a filter applies exactly when the parameter is present and non-empty |
| PermissionGroups.Fetched | app/api/permissions/route.ts:13-22 | without a non-empty `module` parameter the result is the whole table in its order; with one, it is exactly the rows of that module in table order |
| PermissionGroups.FilterKeepsOneGroup | app/api/permissions/route.ts:13-22 | with a module parameter, only that module appears, and its rows are the table's rows of that module in order |
| PermissionGroups.OfModule | app/api/permissions/route.ts:24-30 | a group holds exactly the permissions of its module, no more of them than the input |
| PermissionGroups.Push | app/api/permissions/route.ts:25-28 | the callback adds the module's key, appends the permission to that module's group (created empty when missing) and leaves the other groups alone |
| PermissionGroups.PushGroups | app/api/permissions/route.ts:24-30 | one callback step turns the grouping of a prefix into the grouping of the prefix extended by one permission |
| PermissionGroups.GroupByModule | app/api/permissions/route.ts:24-30 | the result has one key per module present, each holding that module's permissions in input order |
| PermissionGroups.GroupsNonEmptyAndPure | app/api/permissions/route.ts:24-30 | no group is empty, and every member of a group comes from the input and belongs to that module |
| PermissionGroups.GroupMultiplicity | app/api/permissions/route.ts:24-30 | each permission occurs in its module's group as often as in the input |
| PermissionGroups.GroupKeepsOrder | app/api/permissions/route.ts:24-30 | grouping a concatenation concatenates the groups: order is preserved |
| PermissionGroups.ModuleOrder | app/api/permissions/route.ts:24-30 | the module names without repeats, exactly those present (their first-appearance order is stated by `ModuleOrderPrefix`) |
| PermissionGroups.ModuleOrderPrefix | app/api/permissions/route.ts:24-30 | the module order of a prefix of the input is a prefix of the module order: with `ModuleOrder`'s own contract this is the first-appearance order |
| PermissionGroups.GroupSizesSum | app/api/permissions/route.ts:24-30 | the group sizes add up to the number of permissions: nothing is lost or duplicated |
| PermissionGroups.Get | app/api/permissions/route.ts:5-38 | 401 without an authenticated user; otherwise 500 "获取权限列表失败" exactly when some fetched module is named like an `Object.prototype` member (the reduce throws), and 200 with the grouping of the fetched rows in every other case |
| PermissionGroups.GetCorrected | app/api/permissions/route.ts:5-32 | with the corrected grouping: 401 without an authenticated user, otherwise always 200 with the grouping of the fetched rows |
| PermissionGroups.GetProperty | app/api/permissions/route.ts:25 | `acc[m]` on an object literal finds the own array `own[m]` when m is an own key, otherwise an inherited member exactly for the `Object.prototype` names, otherwise `undefined` |
| PermissionGroups.ReduceStep | app/api/permissions/route.ts:25-28 | the callback throws exactly when the module is not an own key and is named like an inherited member |
| PermissionGroups.ReduceAsWritten | app/api/permissions/route.ts:24-30 | the reduce over `{}` throws exactly when some module is named like an inherited member, and otherwise equals the grouping |
| PermissionGroups.StepThrowsOnlyOnInherited | app/api/permissions/route.ts:25-28 | while all groups so far are ordinary, a step throws exactly on an inherited-member module name |
| PermissionGroups.ReduceStepAgrees | app/api/permissions/route.ts:25-28 | on ordinary module names one step of the reduce as written is one step of the grouping |
| PermissionGroups.ConstructorModuleThrows | app/api/permissions/route.ts:24-30 | a permission of module "constructor" makes the written reduce throw, where the grouping gives it its own group |
| AuthStore.Apply | lib/store/auth.ts:28-45 | `setAuth` holds the given token and user and is authenticated; `logout` and `clearAuth` give the initial state |
| AuthStore.ClearAuthIsLogout | lib/store/auth.ts:34-45 | `clearAuth` and `logout` have the same effect from every state, namely the initial state |
| AuthStore.LogoutIdempotent | lib/store/auth.ts:28-39 | logging out twice is logging out once, and `setAuth` followed by `logout` is the initial state |
| AuthStore.LastActionDecides | lib/store/auth.ts:28-45 | after any non-empty sequence of actions the state is determined by the last action alone |
| AuthStore.RunKeepsConsistent | lib/store/auth.ts:25-45 | starting consistent, every sequence of actions keeps "authenticated exactly when token and user are both held" |
| AuthStore.Store.constructor | lib/store/auth.ts:25-27 | the store starts with no token, no user, not authenticated |
| AuthStore.Store.SetAuth | lib/store/auth.ts:28-33 | the new state is `Apply(old, setAuth)`, and it is consistent |
| AuthStore.Store.Logout | lib/store/auth.ts:34-39 | the new state is `Apply(old, logout)`, and it is consistent |
| AuthStore.Store.ClearAuth | lib/store/auth.ts:40-45 | the new state is `Apply(old, clearAuth)`, and it is consistent |
| AuthStore.Store.Partialize | lib/store/auth.ts:49-53 | the persisted slice is exactly token, user and isAuthenticated |
| AuthStore.Store.Rehydrate | lib/store/auth.ts:47-53 | restoring a slice overwrites all three fields with it |
| AuthStore.PersistRoundTrip | lib/store/auth.ts:47-53 | persisting one store and rehydrating another gives it the same state |
| Decimal.DigitChar | app/api/auth/login/route.ts:52 | a decimal digit character with the given value |
| Decimal.NatToDecimal | app/api/auth/login/route.ts:52 | a non-empty digit string without a leading zero |
| Decimal.ToDecimal | app/api/auth/login/route.ts:52 | non-empty, and it starts with "-" exactly for negative values |
| Decimal.ParseBigInt | app/api/auth/me/route.ts:13 | a digit string parses to its value; "-" or "+" before digits gives the negated or the plain value of the digits |
| Decimal.DigitsOfNat | app/api/auth/login/route.ts:52 | the digits written for n have the value n |
| Decimal.DecimalRoundTrip | app/api/auth/me/route.ts:13 | `BigInt(id.toString())` is the id, for every integer |
| Decimal.DecimalInjective | app/api/auth/login/route.ts:52 | distinct ids have distinct decimal texts |
| Login.Credentials | app/api/auth/login/route.ts:10 | an accepted body yields its username (at least 1 unit) and password (at least 6 units) |
| Login.RoleCodes | app/api/auth/login/route.ts:50 | the role codes, one per role link, in link order |
| Login.Payload | app/api/auth/login/route.ts:50-55 | `BigInt(userId)` is the user's id, the username is the user's, and the roles are the role codes in order |
| Login.View | app/api/auth/login/route.ts:60-68 | the returned user's id reads back as the row's id, with the row's username, e-mail, real name, avatar and full roles |
| Login.Respond | app/api/auth/login/route.ts:7-84 | 200 exactly when the body parses and validates, the user exists, is active and the password checks; then the data is the signed payload and the view; every other answer is a failure body without data |
| Login.UnparsableBody | app/api/auth/login/route.ts:78-82 | a body that is not JSON ends in 500 "登录失败" |
| Login.ValidationBeforeLookup | app/api/auth/login/route.ts:72-76 | a body the schema rejects gets 400 with zod's first message, independently of the user table and the password check |
| Login.UnknownUser | app/api/auth/login/route.ts:23-28 | an unknown username gets 401 "用户名或密码错误" |
| Login.DisabledBeforePassword | app/api/auth/login/route.ts:30-35 | a status other than 1 gets 403 "账号已被禁用" whatever the password check says |
| Login.WrongPasswordLooksLikeUnknownUser | app/api/auth/login/route.ts:37-43 | a wrong password gets 401 and exactly the answer an unknown username would get |
| Login.IssuedTokenAuthenticates | app/api/auth/login/route.ts:50-57 | when the verifier decodes what the signer makes, a successful login's token authenticates as the user's payload, whose `userId` parses back to the user's id |
| Login.UserTable.Login | app/api/auth/login/route.ts:7-70 | the answer is `Respond` on the old table; only on 200 is the user's `lastLoginAt` set to now, and on every other path the table is unchanged |

## Left out

- Network, headers, URL parsing and `request.json()` are left out. The header value, the query parameter and the parsed body (or `None` when parsing throws) are inputs.
- JWT signing and verification are parameters, and so is bcrypt password verification. Token expiry (`expiresIn: '7d'`) and the secret are not modelled.
- The ORM is not modelled. Query results are inputs, and the orderings requested from the database (`sortOrder asc`, `module asc`) are whatever order the input list has.
- Errors the database throws are not modelled. This covers the `catch` branches that answer 500 for database failures in the category route (`获取分类列表失败`), the permissions route (`获取权限列表失败`) and the login route (`登录失败`).
- Login.UserTable.Login: the table is keyed by username, which is unique in the database. The source's update keyed by `id` touches the same row.
- Login.Respond: the user table is a map keyed by username, and the model takes each key to be its row's username, as `findUnique({ where: { username } })` guarantees. Nothing in the model enforces that; a map whose key differs from its row's username is outside what is modelled.
- Login: a `verifyPassword` that throws, for example on a malformed hash, is not modelled. It would end in 500.
- `console.log` / `console.error` calls are not modelled, including `onRehydrateStorage` in lib/store/auth.ts:54-61.
- AuthStore.Store.Rehydrate: browser storage is not modelled. Rehydration is the overwrite of the three fields that zustand's default shallow merge performs.
- AuthStore.StoreUser: `roles?: any[]` is typed as a list of role records.
- Decimal.ParseBigInt: only decimal text with an optional sign (and the empty string, which is 0) is modelled. `BigInt` also trims whitespace and reads `0x`/`0o`/`0b` literals; `toString` never produces those.
- DbUtils.CalculatePagination: JavaScript number semantics are not modelled. Page and page size are unbounded integers, so a `NaN` from `parseInt` on a non-numeric query parameter (as in app/api/data-elements/route.ts:15-16), doubles beyond 2^53 and fractional numbers that zod's `z.number()` lets through are outside the model.
- Validations: the zod e-mail regex and `z.coerce.date()` validity are predicate parameters. Only the login schema's first error message is modelled; the other schemas are modelled as accept/reject.
- Category tree: JavaScript's `buildTree` recursion is unbounded. The model carries fuel `|categories|`, and `BuildTreeTerminates` shows that with unique ids (a primary key) this fuel never runs out. With duplicate ids the JavaScript recursion may not terminate; it would overflow the stack and the catch would answer 500. CategoryTree.GetCategories still answers 200 in that case, with a forest cut off where the fuel runs out, so its contract describes the route only for unique ids.
- JavaScript object key order in the grouped permissions is not modelled (a map has no order). `ModuleOrder` and `ModuleOrderPrefix` give the first-appearance order separately.
- lib/types.ts and the React pages and components are not modelled, apart from the record shapes. The other CRUD routes are not modelled either, apart from the `Math.ceil` page count.

## Findings

| source | as written | input that shows it | evidently intended | confidence | as-written member | corrected member |
|---|---|---|---|---|---|---|
| lib/validations.ts:96 | `sourceId: z.bigint()` accepts only BigInt values, which `JSON.parse` never produces, so every JSON request body is rejected | `{"code":"S1","name":"sync","syncType":"data_element","sourceId":1,"targetType":"db","targetConfig":{},"syncFrequency":"daily"}` | a numeric id from a JSON client is accepted (for example `z.coerce.bigint()`) | not executed | Validations.SyncTaskRejectsEveryJsonBody | Validations.IntendedSyncTaskAcceptsJson |
| app/api/permissions/route.ts:24-30 | the `reduce` accumulator `{}` inherits `Object.prototype` members; for a module named like one of them `acc[m]` is truthy, the group is never created, and `push` throws a TypeError, so the route answers 500 | one permission whose module is `"constructor"` | every module gets its own group (an object without a prototype, or a `Map`) | not executed | PermissionGroups.ReduceAsWritten | PermissionGroups.GroupByModule |
