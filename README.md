# Telecom AI Assistant: a Dafny model of its access and context core

The Telecom AI Assistant is a Streamlit application. Users log in and ask
questions about documents an administrator has synced from Google Drive. A
Groq-hosted language model answers each question from a context built out of
the documents the user may read. This project models the parts of the
application that decide these things:

- who may read what: the SQLite tables and their writers, and the access
  resolver `get_user_accessible_resources`;
- what text is stored for a Drive file: link recognition, type guessing,
  extraction outcomes, the folder and single-file syncs with their retry loop,
  and the upsert into the vector store;
- what context and prompt reach the model, and what reply comes back: the
  chatbot service's gate, validation, fallback, router and budgeted context
  builder; the chat page's and the user dashboard's reply paths; the export,
  statistics and access matrix of the chat page;
- the login and registration checks, and the session fields they set;
- the admin dashboard's "Add Resource" routing and its bulk user and
  permission actions;
- the start-up configuration check.

Modules follow the source files:

| file | module | source |
|---|---|---|
| `text.dfy` | `Text` | Python string operations the rest uses (`strip`, `lower`, `title`, `in`, `join`, `int`) |
| `settings.dfy` | `Settings` | `config/settings.py` |
| `store.dfy` | `Store` | `database/models.py` |
| `vector_index.dfy` | `VectorIndex` | `services/ai/chroma_service.py` |
| `login.dfy` | `Login` | `app/auth/login.py` |
| `chatbot.dfy` | `Chatbot` | `services/ai/chatbot_service.py` |
| `drive.dfy` | `Drive` | `services/google_drive/gdrive_service.py` |
| `chat_interface.dfy` | `ChatInterface` | `app/chat/chat_interface.py` |
| `user_dashboard.dfy` | `UserDashboard` | `app/dashboard/user_dashboard.py` |
| `admin_dashboard.dfy` | `AdminDashboard` | `app/dashboard/admin_dashboard.py` |

Objects whose state the source changes in place are classes:

- `Store.Database` holds the four tables as sequences in rowid order, the
  AUTOINCREMENT counters and a clock.
- `VectorIndex.VectorStore` holds the collection as a map keyed by URL.
- `Login.Session` holds the Streamlit session fields.

The table writers are methods whose `ensures` give the whole new state. The Drive syncs state the new rows, their texts and the permission rows they append, file by file. The loops of
the source are methods with loop invariants, each proved against a function:

- the folder sync and its retry loop;
- the context builders;
- the export;
- the matrix fill;
- the bulk admin actions;
- the configuration check.

Everything else is functions, with lemmas relating them.

The services the code calls are inputs:

- the Groq completion is a function from (system prompt, question) to a reply
  or an exception text;
- the vector query's answer is a value;
- the Drive listing, downloads, extractor results and save failures are a
  `Faults` record.

Where the code and the design intent differ, the model follows the code:

- A revoke is an appended `can_access = FALSE` row. The `permissions` table
  has no UNIQUE key, so `INSERT OR REPLACE` never replaces anything. An
  earlier grant therefore keeps its effect, and the access join returns a
  resource once per granting row (`Store.RevokeKeepsEarlierAccess`,
  `Store.JoinMultiplicity`). The intended rule was "a revoke overrides a
  grant".
- The access matrix on both dashboards shows the latest row per pair.
  Without a row it shows access for the uploader and for admins, which the
  resolver does not grant (`ChatInterface.AccessCellRule`).

## Model

| member | source | states |
|---|---|---|
| Settings.MissingVars | Telecom_AI_Assistant/Telecom_Professional/config/settings.py:61-68 | a name is reported exactly when it is required and its setting is unset or empty |
| Settings.CollectMissing | Telecom_AI_Assistant/Telecom_Professional/config/settings.py:65-68 | the loop collects exactly the missing settings, in order |
| Settings.ValidateConfig | Telecom_AI_Assistant/Telecom_Professional/config/settings.py:59-73 | validation succeeds exactly when the API key is set and non-empty; otherwise the error names the missing key |
| Settings.StartupReport | Telecom_AI_Assistant/Telecom_Professional/config/settings.py:75-79 | loading never fails; a "Configuration Error" line is reported exactly when the key is missing |
| Store.Database.constructor | Telecom_AI_Assistant/Telecom_Professional/database/models.py:27-92 | a new database has empty tables except the default admin account, whose password is hashed "admin123" |
| Store.Database.InitDatabase | Telecom_AI_Assistant/Telecom_Professional/database/models.py:85-92 | the admin account (password "admin123") is added only when no user is named "admin", so one exists afterwards; other tables and their counters unchanged |
| Store.Database.CreateUser | Telecom_AI_Assistant/Telecom_Professional/database/models.py:123-143 | succeeds exactly when the username is unused, appending one row with the hashed password; otherwise nothing changes |
| Store.Database.VerifyUser | Telecom_AI_Assistant/Telecom_Professional/database/models.py:145-162 | returns a user whose name and stored hash match, and returns none only when no row matches both |
| Store.FindUserByName | Telecom_AI_Assistant/Telecom_Professional/database/models.py:251-252 | a found user has that name; none is found only when no user has it |
| Store.FindUserById | Telecom_AI_Assistant/Telecom_Professional/database/models.py:298-300 | a found user has that id; none is found only when no user has it |
| Store.FindByCredentials | Telecom_AI_Assistant/Telecom_Professional/database/models.py:152-159 | a found row matches both name and hash; none is found only when no row does |
| Store.RoleOf | Telecom_AI_Assistant/Telecom_Professional/database/models.py:298-300 | an unknown id has role "user"; with increasing ids the role is that of the user with the id |
| Store.UniqueIdLookup | Telecom_AI_Assistant/Telecom_Professional/database/models.py:298 | with increasing ids, one row at most carries a given id |
| Store.Database.UpdateUserRole | Telecom_AI_Assistant/Telecom_Professional/database/models.py:177-188 | exactly the rows with that id take the new role; every other row and table is unchanged |
| Store.Database.DeleteUser | Telecom_AI_Assistant/Telecom_Professional/database/models.py:190-201 | only the user rows with that id go; permission and chat rows stay |
| Store.UsersWithout | Telecom_AI_Assistant/Telecom_Professional/database/models.py:194-195 | the rows left are exactly those with another id |
| Store.UsersWithoutOk | Telecom_AI_Assistant/Telecom_Professional/database/models.py:190-201 | deleting users keeps the users-table invariant: increasing ids below the counter, unique names |
| Store.IndexOfUrl | Telecom_AI_Assistant/Telecom_Professional/database/models.py:218-219 | gives the first row with the URL, and gives none only when no row has it |
| Store.UpsertResourceEffect | Telecom_AI_Assistant/Telecom_Professional/database/models.py:217-236 | after an upsert the URL has a row; a known URL keeps its row, its id and the row count, and its text follows COALESCE; a new URL appends one row with the column defaults |
| Store.UpsertKeepsOtherUrls | Telecom_AI_Assistant/Telecom_Professional/database/models.py:217-236 | an upsert of one URL leaves the position, id, text and whole row of every other URL as it was |
| Store.UpsertKeepsResourcesOk | Telecom_AI_Assistant/Telecom_Professional/database/models.py:217-236 | upserting keeps the resources-table invariant: increasing ids, unique URLs; the counter advances only for a new URL |
| Store.ReingestSameUrl | Telecom_AI_Assistant/Telecom_Professional/database/models.py:217-236 | ingesting one URL twice never adds a second row; a NULL text on the second call keeps the earlier text |
| Store.AutoGrantShape | Telecom_AI_Assistant/Telecom_Professional/database/models.py:250-262 | add_resource appends at most one permission row; it does so exactly when a user has the uploader's name, and that row grants that user the upserted resource |
| Store.AddKeepsOk | Telecom_AI_Assistant/Telecom_Professional/database/models.py:209-267 | one add_resource keeps both the resources-table and permissions-table invariants |
| Store.Database.AddResource | Telecom_AI_Assistant/Telecom_Professional/database/models.py:209-276 | on success the tables are the upsert plus the uploader's auto-grant; on an SQLite error nothing changes and the result is False |
| Store.AdminVisible | Telecom_AI_Assistant/Telecom_Professional/database/models.py:303-312 | an admin gets exactly the resources with non-empty text not starting with "[ERROR" (any case) |
| Store.MatchingResources | Telecom_AI_Assistant/Telecom_Professional/database/models.py:315-325 | a permission row joins exactly the listable resources carrying its resource id |
| Store.GrantedJoin | Telecom_AI_Assistant/Telecom_Professional/database/models.py:315-325 | a non-admin's join holds exactly the listable resources some granting row names |
| Store.GrantCountPositive | Telecom_AI_Assistant/Telecom_Professional/database/models.py:316-318 | the count of granting rows is positive exactly when a granting row exists |
| Store.ResolveRule | Telecom_AI_Assistant/Telecom_Professional/database/models.py:291-325 | an admin reads exactly the listable resources; anybody else (unknown ids included) reads exactly the listable resources a row with can_access grants them |
| Store.MatchingMultiplicity | Telecom_AI_Assistant/Telecom_Professional/database/models.py:316-323 | with increasing ids, one permission row yields a given resource at most once |
| Store.JoinMultiplicity | Telecom_AI_Assistant/Telecom_Professional/database/models.py:316-323 | a non-admin receives a resource once per granting row, so duplicate grants give duplicate results |
| Store.JoinGrowsByAppend | Telecom_AI_Assistant/Telecom_Professional/database/models.py:316-318 | appending permission rows only appends to the join result |
| Store.RevokeKeepsEarlierAccess | Telecom_AI_Assistant/Telecom_Professional/database/models.py:381-395 | a revoke row never removes access the user had before it |
| Store.Database.DeleteResource | Telecom_AI_Assistant/Telecom_Professional/database/models.py:330-341 | only the resource rows with that id go; permission rows stay |
| Store.ResourcesWithout | Telecom_AI_Assistant/Telecom_Professional/database/models.py:334-335 | the rows left are exactly those with another id |
| Store.ResourcesWithoutOk | Telecom_AI_Assistant/Telecom_Professional/database/models.py:330-341 | deleting resources keeps the resources-table invariant |
| Store.Database.UpdateResourceAccess | Telecom_AI_Assistant/Telecom_Professional/database/models.py:343-357 | the table becomes `MarkAccessed` of the old one: exactly the rows with that id become accessed, with the counter up by one; the other tables are unchanged |
| Store.Database.GrantPermission | Telecom_AI_Assistant/Telecom_Professional/database/models.py:365-379 | appends one granting row with the next id; earlier rows untouched |
| Store.Database.RevokePermission | Telecom_AI_Assistant/Telecom_Professional/database/models.py:381-395 | appends one row with can_access false and the next id; earlier rows untouched |
| Store.UserPermissions | Telecom_AI_Assistant/Telecom_Professional/database/models.py:397-413 | the views are exactly the user's permission rows joined to existing resources, with the resource name |
| Store.ViewsFor | Telecom_AI_Assistant/Telecom_Professional/database/models.py:405-407 | one permission row's views are exactly its joins with resources of its id |
| Store.Database.SaveChatHistory | Telecom_AI_Assistant/Telecom_Professional/database/models.py:421-435 | appends one chat row for the user; other tables unchanged |
| Store.RowsOf | Telecom_AI_Assistant/Telecom_Professional/database/models.py:442-444 | the user's rows are exactly their chat rows |
| Store.RowsOfAppend | Telecom_AI_Assistant/Telecom_Professional/database/models.py:421-444 | saving a row extends only its own user's history |
| Store.ChatHistory | Telecom_AI_Assistant/Telecom_Professional/database/models.py:437-450 | a non-negative limit bounds the history's length; a negative one does not |
| Store.NewestFirst | Telecom_AI_Assistant/Telecom_Professional/database/models.py:437-450 | for any non-zero limit the exchange saved last comes back first |
| Store.AccessedCount | Telecom_AI_Assistant/Telecom_Professional/app/dashboard/admin_dashboard.py:54 | the accessed-resources figure is the number of rows whose flag is set (the length of the filtered table), so never more than the number of resources |
| Store.MarkAccessed | Telecom_AI_Assistant/Telecom_Professional/database/models.py:348-351 | the table keeps its length; each row with the id is flagged and counted once more, every other row is unchanged |
| Store.MarkAccessedCount | Telecom_AI_Assistant/Telecom_Professional/database/models.py:348-351 | marking raises the accessed count by the number of rows with that id still unflagged |
| Store.AccessRaisesCount | Telecom_AI_Assistant/Telecom_Professional/app/dashboard/admin_dashboard.py:54 | with unique ids, opening a resource raises the accessed figure by exactly one the first time and not at all afterwards; an id with no row leaves it alone |
| VectorIndex.VectorStore.constructor | Telecom_AI_Assistant/Telecom_Professional/services/ai/chroma_service.py:14-17 | a new store has an empty collection |
| VectorIndex.UpsertEffect | Telecom_AI_Assistant/Telecom_Professional/services/ai/chroma_service.py:31-37 | an upsert stores the text under the URL and adds an entry only for a new URL; other entries are untouched |
| VectorIndex.UpsertTwice | Telecom_AI_Assistant/Telecom_Professional/services/ai/chroma_service.py:31-37 | two upserts of one URL equal the second alone (idempotent key) |
| VectorIndex.DeleteEffect | Telecom_AI_Assistant/Telecom_Professional/services/ai/chroma_service.py:80-82 | a delete removes that URL's entry only |
| VectorIndex.DeleteUndoesNewUpsert | Telecom_AI_Assistant/Telecom_Professional/services/ai/chroma_service.py:31-37 | deleting a URL just upserted as new restores the collection |
| VectorIndex.VectorStore.UpsertDocument | Telecom_AI_Assistant/Telecom_Professional/services/ai/chroma_service.py:19-41 | True with the upsert applied, or False with the collection unchanged when the client raises |
| VectorIndex.VectorStore.DeleteDocument | Telecom_AI_Assistant/Telecom_Professional/services/ai/chroma_service.py:70-85 | True with the entry removed, or False with the collection unchanged when the client raises |
| VectorIndex.RelevantContext | Telecom_AI_Assistant/Telecom_Professional/services/ai/chroma_service.py:43-68 | a raised query gives the error string, no hits give "No relevant documents found.", one hit gives that document, several are joined by a blank line |
| VectorIndex.RelevantContextLength | Telecom_AI_Assistant/Telecom_Professional/services/ai/chroma_service.py:60-62 | the joined hits hold every document plus one blank line between neighbours |
| VectorIndex.RelevantContextOffsets | Telecom_AI_Assistant/Telecom_Professional/services/ai/chroma_service.py:60-62 | every hit occurs at the offset after the earlier hits and one blank line each, and a blank line follows every hit but the last |
| Text.JoinPartAt | Telecom_AI_Assistant/Telecom_Professional/services/ai/chroma_service.py:62 | in `sep.join(parts)` every part sits at its offset, followed by the separator unless it is the last |
| VectorIndex.VectorStore.CollectionStats | Telecom_AI_Assistant/Telecom_Professional/services/ai/chroma_service.py:87-101 | the count is the number of stored entries under "drive_docs", or the exception text |
| Login.ValidateUsername | Telecom_AI_Assistant/Telecom_Professional/app/auth/login.py:157-178 | valid exactly for 3-20 characters matching `^[a-zA-Z0-9_]+$`; otherwise the first failing rule's message |
| Login.UsernameEdgeCases | Telecom_AI_Assistant/Telecom_Professional/app/auth/login.py:167-176 | `$` admits one trailing newline but not two |
| Login.ValidatePasswordStrength | Telecom_AI_Assistant/Telecom_Professional/app/auth/login.py:137-155 | valid exactly when at least 6 characters and not a listed weak password in any case; otherwise the first failing rule's message |
| Login.OnlyLongWeakPasswordsReachListCheck | Telecom_AI_Assistant/Telecom_Professional/app/auth/login.py:137-155 | the weak-password list can only reject "password" and "123456" |
| Login.RoleOrDefault | Telecom_AI_Assistant/Telecom_Professional/app/auth/login.py:197-199 | the stored role when set and non-empty, "user" otherwise |
| Login.Session.GetUserRole | Telecom_AI_Assistant/Telecom_Professional/app/auth/login.py:197-199 | a session without a role reports "user"; a set role is reported as is |
| Login.Session.constructor | Telecom_AI_Assistant/Telecom_Professional/app/main.py:77-86 | a fresh session is logged out with an empty history |
| Login.Session.HandleLogin | Telecom_AI_Assistant/Telecom_Professional/app/auth/login.py:95-113 | an empty field changes nothing; otherwise the session opens exactly when the credentials match a user whose role is the requested one |
| Login.Session.Logout | Telecom_AI_Assistant/Telecom_Professional/app/auth/login.py:201-206 | every session field returns to logged-out and the history is empty |
| Login.Session.ClearChatHistory | Telecom_AI_Assistant/Telecom_Professional/app/chat/chat_interface.py:532-536 | the history is emptied and the login is unchanged |
| Login.HandleRegistration | Telecom_AI_Assistant/Telecom_Professional/app/auth/login.py:115-135 | empty fields, mismatch and short password are rejected in that order with nothing written, which is the error `RegistrationGate` names; otherwise an account is created exactly when the name is unused |
| Login.RegistrationGate | Telecom_AI_Assistant/Telecom_Professional/app/auth/login.py:115-128 | the handler reaches create_user exactly for a non-empty name with matching passwords of at least 6 characters |
| Login.RegistrationIgnoresValidators | Telecom_AI_Assistant/Telecom_Professional/app/auth/login.py:115-135 | registration accepts names and passwords the two validators reject |
| Chatbot.CookieIsOffTopic | Telecom_AI_Assistant/Telecom_Professional/services/ai/chatbot_service.py:82-108 | substring matching refuses "cookie" questions through the keyword "cook" |
| Chatbot.NoContextNoAnswer | Telecom_AI_Assistant/Telecom_Professional/services/ai/chatbot_service.py:82-108 | an empty or sentinel context makes every question unrelated |
| Chatbot.PromptEmbedsContext | Telecom_AI_Assistant/Telecom_Professional/services/ai/chatbot_service.py:61-80 | the prompt holds the context verbatim after the fixed head and ends with the title-cased role; different contexts give different prompts |
| Chatbot.GenerationErrorMessage | Telecom_AI_Assistant/Telecom_Professional/services/ai/chatbot_service.py:54-59 | size and rate errors give the "too large" text; any other error is shown after the fixed prefix |
| Chatbot.ValidateResponseIsLengthTest | Telecom_AI_Assistant/Telecom_Professional/services/ai/chatbot_service.py:161-186 | validation reduces to "at least 10 non-blank-trimmed characters", because the indicators are capitalised but searched in lowercased text |
| Chatbot.NoCapitalWordInLowercase | Telecom_AI_Assistant/Telecom_Professional/services/ai/chatbot_service.py:172-180 | lowercased text never contains a word starting with a capital |
| Chatbot.ErrorTextPassesValidation | Telecom_AI_Assistant/Telecom_Professional/services/ai/chatbot_service.py:54-59 | every mapped error text passes validation |
| Chatbot.TooLargeIsLong | Telecom_AI_Assistant/Telecom_Professional/services/ai/chatbot_service.py:57 | the "too large" text is long enough to pass validation |
| Chatbot.PrefixedErrorIsLong | Telecom_AI_Assistant/Telecom_Professional/services/ai/chatbot_service.py:59 | any prefixed error text is long enough to pass validation |
| Chatbot.GetResponseWithFallback | Telecom_AI_Assistant/Telecom_Professional/services/ai/chatbot_service.py:188-211 | an unrelated question gets the refusal; a related one gets the generated text when it validates, the "trouble" text otherwise |
| Chatbot.RefusalIgnoresService | Telecom_AI_Assistant/Telecom_Professional/services/ai/chatbot_service.py:188-196 | a refused question never consults the completion service |
| Chatbot.ServiceErrorIsShown | Telecom_AI_Assistant/Telecom_Professional/services/ai/chatbot_service.py:188-211 | a failing service's mapped error reaches the user rather than the "trouble" text |
| Chatbot.RouteMessage | Telecom_AI_Assistant/Telecom_Professional/services/ai/chatbot_service.py:219-265 | the first matching list wins: technical exactly when a technical keyword occurs in the lowercased message; sales exactly when no technical but a sales keyword occurs; billing exactly when neither of those but a billing keyword occurs; "customer_service" exactly when none matches |
| Chatbot.CostRoutesToSales | Telecom_AI_Assistant/Telecom_Professional/services/ai/chatbot_service.py:219-265 | "cost", listed for both sales and billing, always routes to sales |
| Chatbot.AgentHeader | Telecom_AI_Assistant/Telecom_Professional/services/ai/chatbot_service.py:282 | the header begins "Agent Type: " |
| Chatbot.SpecializedSkipsSentinel | Telecom_AI_Assistant/Telecom_Professional/services/ai/chatbot_service.py:267-284 | with the header in front, only the keyword test can refuse, even for the sentinel context |
| Chatbot.FirstTwo | Telecom_AI_Assistant/Telecom_Professional/services/ai/chatbot_service.py:128 | `resources[:2]` is the first two documents, or all of fewer |
| Chatbot.Select | Telecom_AI_Assistant/Telecom_Professional/services/ai/chatbot_service.py:127-140 | the loop selects no more parts than documents |
| Chatbot.SelectShape | Telecom_AI_Assistant/Telecom_Professional/services/ai/chatbot_service.py:120-142 | each part names a usable document and carries a prefix of its text; at most two parts |
| Chatbot.SentinelOnlyForEmpty | Telecom_AI_Assistant/Telecom_Professional/services/ai/chatbot_service.py:120-142 | the sentinel is returned exactly for no resources; blank texts only give "" |
| Chatbot.CreateContextFromResources | Telecom_AI_Assistant/Telecom_Professional/services/ai/chatbot_service.py:110-142 | the loop computes the builder's context as written |
| Chatbot.ContextOverrunsBudget | Telecom_AI_Assistant/Telecom_Professional/services/ai/chatbot_service.py:133-140 | as written, a negative slice bound lets a second text exceed the 800-character budget |
| Chatbot.IntendedContextWithinBudget | Telecom_AI_Assistant/Telecom_Professional/services/ai/chatbot_service.py:133-140 | with the bound kept at or above zero, each slice is at most 500 characters and all slices fit in the budget less 100 |
| Chatbot.IntendedContext | Telecom_AI_Assistant/Telecom_Professional/services/ai/chatbot_service.py:110-142 | the corrected builder returns the sentinel exactly for no resources |
| Drive.IdRunEnd | Telecom_AI_Assistant/Telecom_Professional/services/google_drive/gdrive_service.py:118 | the greedy `[a-zA-Z0-9_-]+` run: id characters only, stopping at the first other one |
| Drive.FirstMatch | Telecom_AI_Assistant/Telecom_Professional/services/google_drive/gdrive_service.py:118 | the leftmost position where the marker and one id character match |
| Drive.SearchId | Telecom_AI_Assistant/Telecom_Professional/services/google_drive/gdrive_service.py:118 | `re.search` finds nothing exactly when no position matches; a match is a non-empty run of id characters |
| Drive.ExtractFolderId | Telecom_AI_Assistant/Telecom_Professional/services/google_drive/gdrive_service.py:116-121 | an id is found exactly for folder links, and is non-empty id characters; otherwise the ValueError message |
| Drive.ExtractFileId | Telecom_AI_Assistant/Telecom_Professional/services/google_drive/gdrive_service.py:123-128 | an id is found exactly for file links, and is non-empty id characters; otherwise the ValueError message |
| Drive.IsGdriveFile | Telecom_AI_Assistant/Telecom_Professional/services/google_drive/gdrive_service.py:546-548 | a link is a file link exactly when the file pattern matches |
| Drive.FileUrlRoundTrip | Telecom_AI_Assistant/Telecom_Professional/services/google_drive/gdrive_service.py:389 | the sharing link built for an id is a file link and yields that same id |
| Drive.GuessFileType | Telecom_AI_Assistant/Telecom_Professional/services/google_drive/gdrive_service.py:130-160 | the answer is one of six types; a type is found exactly when the name has a known extension or the MIME type is known |
| Drive.GoogleNativeTypes | Telecom_AI_Assistant/Telecom_Professional/services/google_drive/gdrive_service.py:149-158 | Google Docs, Sheets and Slides map to docx, xlsx and pptx |
| Drive.ExtensionDecides | Telecom_AI_Assistant/Telecom_Professional/services/google_drive/gdrive_service.py:130-160 | ".pdf" wins over any MIME type; unknown name and MIME give no type |
| Drive.GuessFileTypeFirstMatch | Telecom_AI_Assistant/Telecom_Professional/services/google_drive/gdrive_service.py:130-148 | the branch for a type decides exactly when it matches (MIME type or extension) and no earlier branch does |
| Drive.GuessFileTypeNative | Telecom_AI_Assistant/Telecom_Professional/services/google_drive/gdrive_service.py:149-160 | when none of the six branches matches, the Google-native MIME type decides: Docs, Sheets, Slides give docx, xlsx, pptx and anything else gives none |
| Drive.ExtractTextFromBytes | Telecom_AI_Assistant/Telecom_Professional/services/google_drive/gdrive_service.py:162-182 | unsupported types give the placeholder; extractor output passes through; an exception becomes an "[ERROR" text |
| Drive.ExtractionVisibility | Telecom_AI_Assistant/Telecom_Professional/services/google_drive/gdrive_service.py:162-182 | an exception escaping the type dispatch gives an "[ERROR"-tagged text, which every listing hides; the pptx placeholder is shown |
| Drive.ExtractorErrorListed | Telecom_AI_Assistant/Telecom_Professional/services/google_drive/gdrive_service.py:184-211 | a format extractor's own error text ("[PDF extraction error: ...]", likewise DOCX, TXT, XLSX and CSV at lines 227, 236, 245, 254) passes the dispatch unchanged and is listed |
| Drive.TextToStore | Telecom_AI_Assistant/Telecom_Professional/services/google_drive/gdrive_service.py:400-401 | the stored text always has content: the extractor's output, or the "no text" placeholder naming the file |
| Drive.StoredText | Telecom_AI_Assistant/Telecom_Professional/services/google_drive/gdrive_service.py:398-401 | every synced file is stored with non-blank text |
| Drive.CountOf | Telecom_AI_Assistant/Telecom_Professional/services/google_drive/gdrive_service.py:370-443 | a count never exceeds the listing's length |
| Drive.CountsPartition | Telecom_AI_Assistant/Telecom_Professional/services/google_drive/gdrive_service.py:383-451 | every listed file is exactly one of skipped, processed or failed |
| Drive.CountPositiveIff | Telecom_AI_Assistant/Telecom_Professional/services/google_drive/gdrive_service.py:466 | a count is positive exactly when some file has that outcome, so the sync succeeds exactly when some file was saved |
| Drive.SaveWithRetry | Telecom_AI_Assistant/Telecom_Professional/services/google_drive/gdrive_service.py:406-425 | at most three attempts, stopping at the first success; success exactly when some attempt succeeds, and then the URL has a row |
| Drive.ProcessFile | Telecom_AI_Assistant/Telecom_Professional/services/google_drive/gdrive_service.py:374-463 | a skipped file changes nothing; a processed one is upserted with its text, which is then stored under its link, granted to the uploader and added to the vector store; a download failure saves a text-less row; every saved row appends exactly the auto-grant rows; the row and the vector entry of every other link are kept whole |
| Drive.SyncFiles | Telecom_AI_Assistant/Telecom_Professional/services/google_drive/gdrive_service.py:369-466 | the counters equal the processed and failed counts; every processed file ends up stored and granted to the uploader; with distinct ids each keeps its own text in its row and, unless that upsert failed, as its vector entry (text, name, link); only the links of listed files that were saved (processed, or failed after classification) gain or change a row or a vector entry, every other row and entry is kept whole; permissions only gain grants to the uploader; no stored URL is lost |
| Drive.SyncFolder | Telecom_AI_Assistant/Telecom_Professional/services/google_drive/gdrive_service.py:324-470 | a bad link, failed auth or failed listing changes nothing; otherwise True exactly when a file was saved, with the folder sync's storage, grant and text guarantees and its frame: rows and vector entries of links not saved are unchanged |
| Drive.FailedResyncKeepsText | Telecom_AI_Assistant/Telecom_Professional/services/google_drive/gdrive_service.py:453-459 | a failed re-sync keeps the text stored earlier |
| Drive.SyncSingleFile | Telecom_AI_Assistant/Telecom_Professional/services/google_drive/gdrive_service.py:472-540 | True exactly when link, auth, metadata, type, download and the one save all succeed; the row is then upserted under the link as given with the extracted text, the auto-grant rows are appended and the uploader holds the file; otherwise nothing changes |
| Drive.Report | Telecom_AI_Assistant/Telecom_Professional/services/google_drive/gdrive_service.py:613-616 | the report's flag is the sync's result, with the success or failure message and the matching details line; FolderReport passes the folder messages, FileReport the file messages of lines 630-633 |
| Drive.SyncFolderFromStreamlit | Telecom_AI_Assistant/Telecom_Professional/services/google_drive/gdrive_service.py:588-620 | the uploader is created as an admin when missing; success exactly when the folder sync saved a file; after a listed sync every processed file is stored and granted to the uploader, with distinct ids holds its text in its row and vector entry, and rows and vector entries of links not saved are unchanged; otherwise no table changes; permissions only gain grants to the uploader |
| Drive.SyncSingleFileFromStreamlit | Telecom_AI_Assistant/Telecom_Professional/services/google_drive/gdrive_service.py:622-637 | success exactly when the single-file sync succeeded; then the row, its text, the auto-grant and the vector entry are as the sync leaves them; otherwise nothing changes |
| Drive.StoredAll | Telecom_AI_Assistant/Telecom_Professional/services/google_drive/gdrive_service.py:427-441 | once the loop covers all files, each processed file has a row and, unless its upsert failed, a vector entry |
| Drive.ExpectedText | Telecom_AI_Assistant/Telecom_Professional/services/google_drive/gdrive_service.py:398-441 | a file has an expected stored text exactly when the sync processes it |
| Drive.AddResourceGrants | Telecom_AI_Assistant/Telecom_Professional/database/models.py:250-262 | after add_resource the permissions gain only grants to the uploader, and the uploader, when the account exists, holds the upserted row |
| Drive.SyncStep | Telecom_AI_Assistant/Telecom_Professional/services/google_drive/gdrive_service.py:374-463 | one turn of the folder loop returns the file's outcome and extends the storage, grant, text and frame guarantees to one more file |
| Drive.StoredStep | Telecom_AI_Assistant/Telecom_Professional/services/google_drive/gdrive_service.py:427-441 | processing one more file keeps every earlier file stored and adds the new one when it was processed |
| Drive.GrantedStep | Telecom_AI_Assistant/Telecom_Professional/services/google_drive/gdrive_service.py:427-441 | processing one more file keeps every earlier grant to the uploader and adds the new one |
| Drive.FramedStep | Telecom_AI_Assistant/Telecom_Professional/services/google_drive/gdrive_service.py:374-463 | if one more file's processing touches only its own link, every link no earlier saved file has keeps its row and vector entry, and every saved file's link has a row |
| Drive.FramedAll | Telecom_AI_Assistant/Telecom_Professional/services/google_drive/gdrive_service.py:369-466 | after the whole listing, only the links of saved files (SavedUrls) may differ in row or vector entry from before the sync, and each of them has a row |
| Drive.TextsStep | Telecom_AI_Assistant/Telecom_Professional/services/google_drive/gdrive_service.py:427-441 | with distinct ids, processing one more file keeps every earlier file's text and adds the new one's |
| Drive.EntriesStep | Telecom_AI_Assistant/Telecom_Professional/services/google_drive/gdrive_service.py:430-433 | with distinct ids, processing one more file keeps every earlier file's vector entry and adds the new one's (its text, name and link) unless that upsert failed |
| Drive.GrantedAll | Telecom_AI_Assistant/Telecom_Professional/services/google_drive/gdrive_service.py:427-441 | once the loop covers all files, each processed file is granted to the uploader when the account exists |
| Drive.TextsAll | Telecom_AI_Assistant/Telecom_Professional/services/google_drive/gdrive_service.py:398-441 | once the loop covers all files, each processed file has its extracted text stored under its link and, unless that upsert failed, the same text with its name as its vector entry |
| Drive.FileUrlInjective | Telecom_AI_Assistant/Telecom_Professional/services/google_drive/gdrive_service.py:389 | distinct Drive ids give distinct sharing links |
| ChatInterface.DocumentParts | Telecom_AI_Assistant/Telecom_Professional/app/chat/chat_interface.py:425-433 | no more parts than readable resources |
| ChatInterface.DocumentPartsMembership | Telecom_AI_Assistant/Telecom_Professional/app/chat/chat_interface.py:425-433 | a part appears exactly when a readable resource with usable text produced it |
| ChatInterface.DocumentPartLength | Telecom_AI_Assistant/Telecom_Professional/app/chat/chat_interface.py:433 | each part starts with the document's name and carries at most 2000 text characters |
| ChatInterface.DocumentContextCases | Telecom_AI_Assistant/Telecom_Professional/app/chat/chat_interface.py:425-436 | the sentinel appears exactly when the user may read nothing; readable but blank documents give "" |
| ChatInterface.NoUsableTextNoParts | Telecom_AI_Assistant/Telecom_Professional/app/chat/chat_interface.py:427-433 | with no usable text there are no parts |
| ChatInterface.BuildDocumentContext | Telecom_AI_Assistant/Telecom_Professional/app/chat/chat_interface.py:425-436 | the loop computes the page's document context |
| ChatInterface.CombinedContextCases | Telecom_AI_Assistant/Telecom_Professional/app/chat/chat_interface.py:439-448 | a failed query's error string is appended; no hits or no service leave the context alone; the document context is always a prefix |
| ChatInterface.VectorHitsIgnorePermissions | Telecom_AI_Assistant/Telecom_Professional/app/chat/chat_interface.py:439-448 | vector hits reach the prompt even for a user who may read nothing |
| ChatInterface.ChatPromptEmbeds | Telecom_AI_Assistant/Telecom_Professional/app/chat/chat_interface.py:451-496 | the stored role and the context appear verbatim at fixed places; different contexts give different prompts |
| ChatInterface.ChatReply | Telecom_AI_Assistant/Telecom_Professional/app/chat/chat_interface.py:519-530 | an exception gives a reply starting with the error prefix |
| ChatInterface.GetChatbotResponse | Telecom_AI_Assistant/Telecom_Professional/app/chat/chat_interface.py:408-530 | without a key, the configuration message and nothing saved; otherwise the reply to the prompt over the resolved resources and vector text, saved as one chat row |
| ChatInterface.SendMessage | Telecom_AI_Assistant/Telecom_Professional/app/chat/chat_interface.py:97-104 | an empty question changes nothing; otherwise exactly one (question, reply) is appended to the history; with a key set the reply is the completion of the page prompt over the role and the resources the logged-in user may read (PageReply) and is saved for that user, without one it is the configuration message; users, resources and permissions are unchanged |
| ChatInterface.RowsOfPermissions | Telecom_AI_Assistant/Telecom_Professional/app/chat/chat_interface.py:282-287 | one matrix row per permission row, in table order |
| ChatInterface.FillMatrix | Telecom_AI_Assistant/Telecom_Professional/app/chat/chat_interface.py:290-294 | the loop builds the matrix dictionary |
| ChatInterface.MatrixLastRowWins | Telecom_AI_Assistant/Telecom_Professional/app/chat/chat_interface.py:290-294 | a pair has an entry exactly when a row names it, and the entry is the last such row's value |
| ChatInterface.AccessCellRule | Telecom_AI_Assistant/Telecom_Professional/app/chat/chat_interface.py:318-329 | an entry decides the cell; without one, uploader or admin shows access |
| ChatInterface.LaterRevokeHidesAccess | Telecom_AI_Assistant/Telecom_Professional/app/dashboard/user_dashboard.py:212-222 | a later revoking row hides access even from an admin uploader |
| ChatInterface.TotalAccessBound | Telecom_AI_Assistant/Telecom_Professional/app/chat/chat_interface.py:350 | the total counts pairs, never more than the permission rows |
| ChatInterface.ExportChatHistory | Telecom_AI_Assistant/Telecom_Professional/app/chat/chat_interface.py:538-552 | the loop builds the export text |
| ChatInterface.ExportContainsEveryExchange | Telecom_AI_Assistant/Telecom_Professional/app/chat/chat_interface.py:538-552 | the export begins with the header and holds each exchange's numbered block in history order |
| ChatInterface.ExportEmptyIff | Telecom_AI_Assistant/Telecom_Professional/app/chat/chat_interface.py:540-541 | "No chat history to export." is the export exactly for an empty history |
| ChatInterface.ChatStatistics | Telecom_AI_Assistant/Telecom_Professional/app/chat/chat_interface.py:554-574 | the exchange count is the history's length |
| ChatInterface.StatisticsOfConcat | Telecom_AI_Assistant/Telecom_Professional/app/chat/chat_interface.py:564-566 | the statistics add up over a split history |
| ChatInterface.StatisticsAreSums | Telecom_AI_Assistant/Telecom_Professional/app/chat/chat_interface.py:565-566 | the user and AI totals are the summed lengths of all questions and of all answers |
| ChatInterface.UserTotalZeroIff | Telecom_AI_Assistant/Telecom_Professional/app/chat/chat_interface.py:565 | the user character total is zero exactly when every question is empty |
| UserDashboard.DashboardContextCases | Telecom_AI_Assistant/Telecom_Professional/app/dashboard/user_dashboard.py:322-355 | a vector hit replaces the documents whatever the user may read; no hits, a failed query or no service fall back to the documents |
| UserDashboard.BlankHitEmptiesContext | Telecom_AI_Assistant/Telecom_Professional/app/dashboard/user_dashboard.py:322-355 | a blank hit empties the context; nothing readable and no service give the sentinel |
| UserDashboard.ErrorReply | Telecom_AI_Assistant/Telecom_Professional/app/dashboard/user_dashboard.py:389-395 | key errors first, then rate limits in any case, then the generic error line |
| UserDashboard.KeyTestComesFirst | Telecom_AI_Assistant/Telecom_Professional/app/dashboard/user_dashboard.py:389-392 | a 401 mentioning a rate limit is reported as a bad key |
| UserDashboard.RateLimitIgnoresCase | Telecom_AI_Assistant/Telecom_Professional/app/dashboard/user_dashboard.py:392-393 | "Rate Limit" in capitals is a rate limit |
| UserDashboard.KeyTestIsCaseSensitive | Telecom_AI_Assistant/Telecom_Professional/app/dashboard/user_dashboard.py:389-395 | a lower-case "invalid api key" gets the generic line |
| UserDashboard.GetChatbotResponse | Telecom_AI_Assistant/Telecom_Professional/app/dashboard/user_dashboard.py:299-395 | without a key, the configuration message; otherwise the reply to the short prompt over the dashboard context; nothing is saved |
| UserDashboard.SendMessage | Telecom_AI_Assistant/Telecom_Professional/app/dashboard/user_dashboard.py:43-48 | an empty question changes nothing; otherwise (question, reply) is appended and the login kept |
| UserDashboard.ShownLength | Telecom_AI_Assistant/Telecom_Professional/app/dashboard/user_dashboard.py:137-138 | the length is shown exactly for usable text, and is then the text's length |
| AdminDashboard.RouteOf | Telecom_AI_Assistant/Telecom_Professional/app/dashboard/admin_dashboard.py:159-250 | a missing field stops the button; a folder sync exactly for folder links; a file sync exactly for file links that are not folder links; a plain row exactly for links that are neither |
| AdminDashboard.FolderTestComesFirst | Telecom_AI_Assistant/Telecom_Professional/app/dashboard/admin_dashboard.py:185-225 | a link matching both patterns is synced as a folder |
| AdminDashboard.ShownReport | Telecom_AI_Assistant/Telecom_Professional/app/dashboard/admin_dashboard.py:200-242 | the status line shows success exactly for a successful report |
| AdminDashboard.AddResourceButton | Telecom_AI_Assistant/Telecom_Professional/app/dashboard/admin_dashboard.py:159-254 | missing fields change nothing; otherwise the database is opened first, so the "admin" account (password "admin123") is added exactly when missing and users are otherwise unchanged on every route; a failure while setting up the Drive integration then shows "Error adding resource: " with its message and writes nothing else; a folder sync succeeds exactly when a file was saved, stores, grants and keeps the text and vector entry of every processed file, and keeps every other row and vector entry whole; a file sync succeeds under the single-file conditions and then writes the row, text, grant (to the users after that opening) and vector entry; a plain row is an upsert without text plus the auto-grant to the users after that opening, or nothing on failure |
| AdminDashboard.PlainRowKeepsText | Telecom_AI_Assistant/Telecom_Professional/app/dashboard/admin_dashboard.py:244-250 | a plain link keeps a known URL's text, and a new one is never listed |
| AdminDashboard.FirstFieldOfNumbered | Telecom_AI_Assistant/Telecom_Professional/app/dashboard/admin_dashboard.py:388 | splitting "digits - rest" on " - " gives the digits first |
| AdminDashboard.OptionRoundTrip | Telecom_AI_Assistant/Telecom_Professional/app/dashboard/admin_dashboard.py:330 | parsing an option string gives back the user's or resource's id, whatever the name holds |
| AdminDashboard.OneBadOption | Telecom_AI_Assistant/Telecom_Professional/app/dashboard/admin_dashboard.py:386-393 | one unparsable option makes the loop stop |
| AdminDashboard.UserOptionsParse | Telecom_AI_Assistant/Telecom_Professional/app/dashboard/admin_dashboard.py:330 | the page's own options all parse, back to the users' ids |
| AdminDashboard.DeleteParsed | Telecom_AI_Assistant/Telecom_Professional/app/dashboard/admin_dashboard.py:384-393 | completes exactly when every option parses, and then exactly the selected users are gone; no user is ever added |
| AdminDashboard.DeleteSelectedUsers | Telecom_AI_Assistant/Telecom_Professional/app/dashboard/admin_dashboard.py:384-393 | the same for the page's parser; permission and chat rows stay |
| AdminDashboard.WithRole | Telecom_AI_Assistant/Telecom_Professional/app/dashboard/admin_dashboard.py:398-400 | exactly the selected users take the new role |
| AdminDashboard.SetRoleParsed | Telecom_AI_Assistant/Telecom_Professional/app/dashboard/admin_dashboard.py:395-404 | completes exactly when every option parses, and then the selected users have the new role; ids are kept |
| AdminDashboard.UpdateSelectedUserRoles | Telecom_AI_Assistant/Telecom_Professional/app/dashboard/admin_dashboard.py:395-404 | the same for the page's parser |
| AdminDashboard.PromotionShowsEverything | Telecom_AI_Assistant/Telecom_Professional/app/dashboard/admin_dashboard.py:395-404 | a user promoted to admin reads every listable resource |
| AdminDashboard.CartesianMembership | Telecom_AI_Assistant/Telecom_Professional/app/dashboard/admin_dashboard.py:448-451 | the nested loop visits exactly the selected (user, resource) pairs |
| AdminDashboard.RowsFor | Telecom_AI_Assistant/Telecom_Professional/app/dashboard/admin_dashboard.py:452-454 | one row per visited pair, numbered consecutively |
| AdminDashboard.ApplyRow | Telecom_AI_Assistant/Telecom_Professional/app/dashboard/admin_dashboard.py:450-454 | the inner loop appends one row per selected resource, or stops at a bad option keeping earlier rows |
| AdminDashboard.ApplyBatch | Telecom_AI_Assistant/Telecom_Professional/app/dashboard/admin_dashboard.py:448-454 | completes exactly when the options parse, appending one row per pair; earlier rows are always kept |
| AdminDashboard.GrantBatchPermissions | Telecom_AI_Assistant/Telecom_Professional/app/dashboard/admin_dashboard.py:444-458 | one granting row per selected pair |
| AdminDashboard.RevokeBatchPermissions | Telecom_AI_Assistant/Telecom_Professional/app/dashboard/admin_dashboard.py:460-474 | one revoking row per selected pair |
| AdminDashboard.BatchGrantGivesAccess | Telecom_AI_Assistant/Telecom_Professional/app/dashboard/admin_dashboard.py:444-458 | after a batch grant every selected user reads every selected listable resource |
| AdminDashboard.BatchRevokeKeepsAccess | Telecom_AI_Assistant/Telecom_Professional/app/dashboard/admin_dashboard.py:460-474 | a batch revoke takes away no access |

## Left out

- Rendering, Streamlit widgets, `st.rerun`, logging, `print`, `time.sleep` and the sync log file are not modelled.
- The SQLite connection, commit and rollback mechanics are reduced to sequences. `CURRENT_TIMESTAMP` is a clock field. Foreign keys are unenforced, as in SQLite by default.
- SHA-256 password hashing is an abstract function `hash`.
- Only `add_resource` and the vector-store writers carry a failure input. The other writers' `except` branches, which return False on an SQLite error, are not modelled.
- The Groq client, the Chroma similarity query, the Drive API, OAuth, downloads and the PDF/DOCX/XLSX/CSV extractors are inputs. The one re-authentication attempt of the folder sync is folded into the `authOk` flag.
- The `text_extractor.py` module is not part of this model.
- `get_folder_files` and `get_sync_status` only list and read the log; they are left out.
- `get_user_info` copies fields of `current_user` into a dict and is left out.
- `get_context_from_chroma` forwards to `get_relevant_context`, which catches its own exceptions, so its fallback string is unreachable; it has no caller and is left out.
- `render_resource_details`' delete button is `Store.Database.DeleteResource`, not modelled separately.
- `show_user_permissions` displays `Store.UserPermissions`, not modelled separately.
- The keyword loops are stated as "some keyword occurs" predicates, not as loops.
- `lower()` and `title()` are ASCII-only. Unicode case mapping is not modelled.
- `Text.ParseInt` strips white space and accepts an optional sign and ASCII digits. Python's `int()` also accepts underscores between digits and non-ASCII digits; the model does not, and no option string the page builds contains either.
- The matrix query's `ORDER BY user_id, resource_id` leaves the order of several rows for one pair unspecified. The model takes table (rowid) order, so the latest row for a pair wins.
- `current_user` being `None` inside the batch loops is not modelled. The granter is a parameter.
- `ChatInterface.ChatStatistics`: `average_response_length` is a float and is left out.
- The model, temperature and token-limit settings are not modelled.
- `Store.ChatHistory`: only its length bounds are stated. The order of rows within one timestamp is taken as id order, which `Store.NewestFirst` states for the newest row.
- AdminDashboard.AddResourceButton: `setupError` stands for an exception raised after the database is opened (admin_dashboard.py:179). A failing import or a failing database open before `init_database` completes would write nothing, and is not modelled separately.
- `Store.GrantedJoin` and `Store.AccessibleResources`: the access queries have no `ORDER BY`. The model takes permission-row order for a non-admin and table order for an admin, and `ChatInterface.DocumentParts` and both `GetChatbotResponse` members therefore fix one prompt where SQLite may return the rows, and so the documents, in another order.
- `Chatbot.Select` and `ChatInterface.DocumentParts` state only length bounds in their own contracts. Their meaning is stated by `Chatbot.SelectShape`, `Chatbot.IntendedContextWithinBudget` and `ChatInterface.DocumentPartsMembership`.

## Findings

| source | as written | input that shows it | evidently intended | confidence | as-written member | corrected member |
|---|---|---|---|---|---|---|
| Telecom_AI_Assistant/Telecom_Professional/services/ai/chatbot_service.py:138 | `text[:min(500, remaining - 100)]` with 0 < remaining < 100 slices with a negative bound, keeping all but the last few characters | first document: a 200-character name and at least 500 characters of text, so 50 characters remain; second document: a text longer than 800 characters enters almost whole | the slice bound is never below zero, so the context stays within `MAX_CONTEXT_LENGTH` | not executed | Chatbot.ContextOverrunsBudget | Chatbot.IntendedContextWithinBudget |
