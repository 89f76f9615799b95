# mobile-api-extensions, modelled in Dafny

This project models the core of the `mobile_api_extensions` Open edX plugin and
proves properties of that model. The plugin serves the mobile apps:

- **Mobile single sign-on.**
  - The login entry point records in the session whether the login should end in the app's deep link.
  - The completion handler issues a one-time authorization code and redirects to the deep link with
    `AuthorizationCode=<code>&Status=success|error`.
  - The exchange endpoint checks the code and the OAuth client. It mints a bearer token for the code's
    holder and then clears the code.
  - The two redirect views forward the code to the app, or start a login that will end in the app.
- **Authorization codes.** `MobileUserAuth` keeps one code per user. A code is the hex form of a random
  UUID and is unique across users. A code that collides with a stored one is regenerated.
- **The code-exchange form.** Django field cleaning (strip, required, maximum length, no NUL) of
  `authorization_code` and `client_id`, followed by a `clean` that resolves the client and the user
  holding the code, each independently.
- **The mobile SCORM block.**
  - `set_value` stores each run-time data-model element, maps status, score and progress elements onto
    the block's fields, and publishes grades and completion.
  - `scorm_set_values` applies a batch, gated by a last-updated time.
  - The block also builds the storage path and URL of its package.
- **The HTML block's mobile package.**
  - Every `/static/<name>` link becomes `assets/<name>`, and each linked asset is copied into the package
    directory as it is found.
  - The page is written as `index.html`.
  - The package is rebuilt only when the block was published after the package was created.
- **The course list.**
  - A permission filter that always requires the catalog-visibility permission.
  - Then, when courseware search is on and a term is given, an order-preserving filter by search hits.

One Dafny module per source file:

| file | module | source | form |
|---|---|---|---|
| `common.dfy` | `Common` | shared | values, truthiness, locations, URL rules |
| `auth_codes.dfy` | `AuthCodes` | `models.py` | spec functions plus class `MobileUserAuthTable` with a retry loop |
| `exchange_form.dfy` | `ExchangeForm` | `forms.py` | field cleaning functions plus method `Validate` |
| `mobile_sso.dfy` | `MobileSso` | `views.py` | URL functions plus classes `Session`, `TokenRequest` and `Platform` |
| `scorm.dfy` | `Scorm` | `mobile_scorm.py` | spec functions plus class `MobileScormBlock` |
| `html_block.dfy` | `HtmlBlock` | `html_block.py` | tokenisation functions plus class `HtmlBlockPackage` with the scan loop |
| `courses.dfy` | `Courses` | `utils.py` | functions and lemmas (the source is pure) |

### Collaborators are parameters

The platform calls the plugin makes are parameters, and calls whose only result is a side effect are
recorded as events:

- **Candidate UUIDs:** a sequence of numbers below 16^32.
- **Social-auth pipeline:** a `PipelineResult`.
- **Login and activation email:** the `Effect` log.
- **Token generator:** a function of the populated request fields, the lifetime and the refresh flag.
- **OAuth applications:** a map from client id to client.
- **SCORM float parser and grade computation:** the functions of a `Runtime`.
- **Grade publication and completion:** `Event`s.
- **Clock:** a `now` argument.
- **Storage:** a map from path to contents, plus the package's created time.
- **Asset store:** a map from link to contents.
- **`has_access`:** a function.
- **Search engine:** a function from term and size to the ids it found.

### Where the model departs from the documented behaviour

- **Non-deeplink login completion.** Only a session with a true `deeplink_redirect` gets the code
  parameters. Any other session is handed to social-core's `do_complete` unchanged
  (`views.py:143-151`).
- **`ExtraUserInfo`.** `views.py` imports and queries the code table as `ExtraUserInfo` (line 32) and
  `extra_user_info` (lines 243-245). `models.py` defines it as `MobileUserAuth` with relation
  `mobile_user_auth`. The model has one table, class `MobileUserAuthTable`.
- **Findings.** Where the code is evidently wrong, the model uses the corrected behaviour; see
  "## Findings".

## Model

| member | source | states |
|---|---|---|
| Common.BaseStoragePath | mobile_api_extensions/html_block.py:67-68 | The block directory `org/course/type/id/` starts with the organisation and ends with `/`. |
| Common.AbsoluteUrlShape | mobile_api_extensions/html_block.py:112-115 | The answered URL ends with the storage URL. It starts with `http` whenever the LMS root does. It equals the storage URL exactly when that URL already starts with `http` (or the root is empty). |
| Common.AbsoluteUrlIdempotent | mobile_api_extensions/mobile_scorm.py:123-125 | Making a URL absolute a second time changes nothing, for an `http` LMS root. |
| AuthCodes.GenerateAuthorizationCode | mobile_api_extensions/models.py:22-27 | A generated code is 32 lowercase hex digits, the width of the column (line 16). |
| AuthCodes.ParseHexOfHex | mobile_api_extensions/models.py:27 | Decoding the 32-digit hex form gives back the UUID's number: a round trip. |
| AuthCodes.GeneratedCodeShape | mobile_api_extensions/models.py:27 | A UUID4's code shows the version digit `4` at position 12 and a variant digit `8`, `9`, `a` or `b` at position 16. |
| AuthCodes.GeneratedCodesInjective | mobile_api_extensions/models.py:27 | Distinct UUIDs give distinct codes. |
| AuthCodes.Issue | mobile_api_extensions/models.py:29-47 | Corrected `set_authorization_code`. A present code is kept and returned with nothing written. Otherwise an issued code is one of the candidates' codes, no other row holds it, and it is stored on the user's row. Other rows are unchanged and uniqueness is preserved. |
| AuthCodes.IssueTakesFirstFree | mobile_api_extensions/models.py:35-45 | Candidates are tried in order: when candidate `i` is the first one no other row holds, its code is stored and returned. |
| AuthCodes.IssueFailsOnlyIfAllTaken | mobile_api_extensions/models.py:35-45 | No code is issued only when every candidate's code is held by another row. |
| AuthCodes.IssueAsWritten | mobile_api_extensions/models.py:35-45 | The code as written: after a collision, the retry returns the rejected token without storing anything. |
| AuthCodes.CollisionReturnsForeignCode | mobile_api_extensions/models.py:37-45 | On a collision, the code as written returns a code another user holds and stores nothing on this user's row. The corrected `Issue` returns only a code it stored and that no other row holds. |
| AuthCodes.IssueIdempotent | mobile_api_extensions/models.py:35-47 | After a successful issue, issuing again returns the same code and writes nothing. |
| AuthCodes.IssueSucceedsOnFreeCandidate | mobile_api_extensions/models.py:36-45 | If any candidate is free, a code is issued, and a freshly stored code has 32 characters. |
| AuthCodes.MobileUserAuthTable.GetOrCreate | mobile_api_extensions/views.py:54 | A missing row is created with a null code; an existing row is left as it is. |
| AuthCodes.MobileUserAuthTable.Save | mobile_api_extensions/models.py:38-41 | The save fails, writing nothing, exactly when another row holds the code; otherwise it stores the code. |
| AuthCodes.MobileUserAuthTable.SetAuthorizationCode | mobile_api_extensions/models.py:29-47 | The retry loop leaves the table and returns the code exactly as `Issue` specifies. |
| ExchangeForm.Strip | mobile_api_extensions/forms.py:14-15 | The stripped value is empty or starts and ends with a non-space character. |
| ExchangeForm.StripRemovesOnlySpace | mobile_api_extensions/forms.py:14-15 | The stripped value is the middle of the input, and everything cut from either end is whitespace (the characters `str.isspace()` accepts). |
| ExchangeForm.CleanCharField | mobile_api_extensions/forms.py:14-15 | A missing or blank value is rejected as "required" alone. A stripped value that is non-empty, within the maximum length and free of NUL is accepted as that value; conversely an accepted value is such a value. A rejected value carries at least one error. |
| ExchangeForm.CleanCharFieldNamesFailures | mobile_api_extensions/forms.py:14-15 | A non-blank value that is too long is rejected with the too-long error naming the limit and the length; one holding NUL is rejected with the null-characters error. |
| ExchangeForm.AcceptedCodeFitsColumn | mobile_api_extensions/forms.py:14 | An accepted code has 1 to 32 characters. |
| ExchangeForm.MessageQuotesValue | mobile_api_extensions/forms.py:29-41 | Both lookup errors quote the submitted value between brackets. |
| ExchangeForm.Validate | mobile_api_extensions/forms.py:22-41 | The errors are exactly `FormErrorsAre`: each field has an entry exactly when it fails to clean or its lookup fails; the entry is the field's cleaning errors, else the unknown-client or unknown-code message. The form is valid exactly when both fields clean, the client exists and some user holds the code; it then carries that client, that code and that user. |
| ExchangeForm.HolderIsUnique | mobile_api_extensions/forms.py:34 | Under the column's uniqueness (models.py:16) at most one user holds a code, so the user lookup is unambiguous. |
| MobileSso.AppendQueryKeepsBase | mobile_api_extensions/views.py:129 | The URL keeps its base and gains the query at its end, joined by `&` exactly when the base already has a `?`. |
| MobileSso.AppendQuerySingleQuery | mobile_api_extensions/views.py:129 | A base with at most one `?`, plus a query without one, gives a URL with exactly one `?`. |
| MobileSso.CompletionUrl | mobile_api_extensions/views.py:124-129 | Corrected completion URL: the `sso-deeplink` route when a code was issued, else the login-error URL; the code and status are appended. |
| MobileSso.CompletionUrlStatus | mobile_api_extensions/views.py:124-129 | The URL starts with the chosen base, carries `AuthorizationCode=<code>&Status=<status>`, and ends in `success` exactly when a code was issued. |
| MobileSso.CompletionUrlAsWritten | mobile_api_extensions/views.py:108-129 | As written, `url` is left unbound exactly when no code was issued and the caller is not an anonymous one whose pipeline found no user; where it is bound it equals the corrected URL. |
| MobileSso.AuthenticatedWithoutUserRaises | mobile_api_extensions/views.py:108-109 | If the caller is authenticated and the pipeline yields no user, `Populate` issues no code, `url` is left unbound and line 129 raises. |
| MobileSso.RedirectToMobileDeeplink | mobile_api_extensions/views.py:255-261 | A 302 whose body and `Location` are the deep link, then `?`, then both parameters (missing ones render as `None`). |
| MobileSso.DeeplinkJoinsWithQuestionMark | mobile_api_extensions/views.py:258 | The deep link is always followed by `?`, even when it already has a query. |
| MobileSso.DeeplinkAddsOneQuestionMark | mobile_api_extensions/views.py:257-258 | For parameters without `?`, the redirect has exactly one `?` more than the deep link. |
| MobileSso.RedirectToMobile | mobile_api_extensions/views.py:264-281 | The login route `social_login_override` with `next` set to the deep link. The `tpa-saml` backend alone adds `auth_entry=login` and `idp` (default `default`). |
| MobileSso.MobileLoginIsDetected | mobile_api_extensions/views.py:161-163 | A login begun by `redirect_to_mobile` is recognised as a mobile one. A login without `next` is recognised as mobile only when the deep link is empty. |
| MobileSso.PopulatedFields | mobile_api_extensions/views.py:222-234 | The request carries the user, the default scopes, the client and its grant type; state, refresh token and extra credentials are `None`. |
| MobileSso.ExpiresIn | mobile_api_extensions/views.py:208-210 | The token lifetime is the configured number of days times 86400 seconds. |
| MobileSso.TokenRequest.Populate | mobile_api_extensions/views.py:228-234 | After the scope-copying loop, the request's fields are exactly `PopulatedFields`. |
| MobileSso.ClearCode | mobile_api_extensions/views.py:236-242 | The documented clearing nulls the code and keeps every row. |
| MobileSso.ClearCodeRevokes | mobile_api_extensions/views.py:236-245 | Clearing keeps the codes unique and changes no other row. The same submission then fails validation, so a code is single use. |
| MobileSso.ClearCodeAsWritten | mobile_api_extensions/views.py:243-245 | The clearing as written writes no row. |
| MobileSso.ReplayAcceptedAsWritten | mobile_api_extensions/views.py:243-245 | After the clearing as written, an accepted submission is accepted again. |
| MobileSso.Populate | mobile_api_extensions/views.py:43-57 | No user means no code. A user gets a row, keeps a present code, and every issued code is stored on that user's row. Uniqueness is preserved. |
| MobileSso.Platform.AuthMobile | mobile_api_extensions/views.py:155-165 | The session's `deeplink_redirect` is set to whether `next` (default `""`) equals the deep link, then authentication begins. Nothing else changes. |
| MobileSso.Platform.PopulateAuthorizationCode | mobile_api_extensions/views.py:51-57 | The table and the returned code are exactly `Populate`. |
| MobileSso.Activation | mobile_api_extensions/views.py:60-82 | With no profile nothing changes. With one, the user ends active exactly when already active or the provider skips verification, and an email is sent exactly when neither holds. An active user's flags are untouched, and so is every other user. |
| MobileSso.MobileCompletion | mobile_api_extensions/views.py:85-131 | Per branch, the exact response and new state: (1) a non-user pipeline result is passed through after the pipeline call; (2) an authenticated caller gets the completion URL for `Populate` of the pipeline's user, with no login; (3) a new login records the login and the provider, issues a code and then runs `Activation`; (4) an anonymous caller with no user is sent to the login-error URL with an empty code and `error`. Only a new login changes the users' flags and the login backend; code uniqueness is preserved. |
| MobileSso.Platform.SendActivationEmail | mobile_api_extensions/views.py:60-82 | The users' flags and the effects become `Activation` of the old ones. |
| MobileSso.Platform.MobileDoComplete | mobile_api_extensions/views.py:85-131 | The response and the new table, flags, effects and login backend are exactly `MobileCompletion` of the old state; the session's `deeplink_redirect` is unchanged. |
| MobileSso.Platform.CompleteMobile | mobile_api_extensions/views.py:136-151 | With a true `deeplink_redirect` in the session, the response and new state are exactly `MobileCompletion`. Otherwise social-core's completion is called and the table and flags are untouched. |
| MobileSso.Platform.CleanAuthorizationCode | mobile_api_extensions/views.py:236-245 | The table becomes `ClearCode` of the old one. |
| MobileSso.Platform.Post | mobile_api_extensions/views.py:188-202 | An invalid form gives a 400 whose errors are the form's (`FormErrorsAre`) and changes nothing. A valid one mints the token for the code's holder, with the populated request and lifetime, then clears the code. |
| MobileSso.Platform.CreateAccessToken | mobile_api_extensions/views.py:204-214 | The request is populated, and the token is minted from those fields, the lifetime and a refresh token. |
| MobileSso.Platform.ExchangeTwice | mobile_api_extensions/views.py:197-201 | If the first exchange of a submission gives a token, the second is refused with an error on `authorization_code`. |
| Scorm.PublishGradeSpec | mobile_api_extensions/mobile_scorm.py:42-49 | The clock is stamped into `last_updated_time` only when asked, and the current grade is published out of the weight. |
| Scorm.MobileScormBlock.PublishGrade | mobile_api_extensions/mobile_scorm.py:43-49 | The block's new state is `PublishGradeSpec` of the old one. |
| Scorm.Classify | mobile_api_extensions/mobile_scorm.py:52-73 | The `if`/`elif` chain. A lesson status is split into a success or a completion status. A raw score counts only on a graded block, divided by 100. A progress measure is parsed. |
| Scorm.SetValueStoresRaw | mobile_api_extensions/mobile_scorm.py:59-94 | Every element is stored raw under its name, and only that key and the time stamp are written. Events only grow, and the context always reports success. |
| Scorm.LessonStatusRouting | mobile_api_extensions/mobile_scorm.py:60-92 | `passed`/`failed` set the success status, are not reported, and publish the grade on a graded block. `completed`/`incomplete` set the lesson status and are reported; `completed` emits completion 1 and then, on a graded block, the grade; `incomplete` emits nothing. Any other value is only stored. |
| Scorm.ScoreRouting | mobile_api_extensions/mobile_scorm.py:70-80 | On a graded block a raw score sets the score, reports the grade and publishes it. On an ungraded block it is only stored. |
| Scorm.CompletionEvents | mobile_api_extensions/mobile_scorm.py:72-92 | A progress measure emits its value. `completed` emits 1, followed by a grade publication when the block is graded. |
| Scorm.UngradedNeverPublishes | mobile_api_extensions/mobile_scorm.py:79-92 | An ungraded block emits completion events only. |
| Scorm.SuccessStatusPublishes | mobile_api_extensions/mobile_scorm.py:66-67 | A truthy success status is stored and publishes the grade it leads to. |
| Scorm.SetValueIgnoresClock | mobile_api_extensions/mobile_scorm.py:51-94 | Without the time stamp, `set_value` does not depend on the time. |
| Scorm.MobileScormBlock.SetValue | mobile_api_extensions/mobile_scorm.py:51-94 | The block's new state and the returned context are exactly `SetValueSpec`. |
| Scorm.ApplyAll | mobile_api_extensions/mobile_scorm.py:105-106 | A batch gives one context per element. |
| Scorm.ApplyAllContexts | mobile_api_extensions/mobile_scorm.py:113 | Every context of a batch reports success, and earlier events are kept. |
| Scorm.ApplyAllIgnoresClock | mobile_api_extensions/mobile_scorm.py:105-106 | A batch applied without the time stamp does not depend on the time. |
| Scorm.MobileScormBlock.ApplyItems | mobile_api_extensions/mobile_scorm.py:105-106 | The loop's final state and contexts are exactly `ApplyAll`. |
| Scorm.PyLess | mobile_api_extensions/mobile_scorm.py:104 | `<` is defined exactly on numbers and booleans, where it is the numeric order; elsewhere it raises. |
| Scorm.Trunc | mobile_api_extensions/mobile_scorm.py:107 | `int()` truncates toward zero. |
| Scorm.StaleBatchOnlyMarks | mobile_api_extensions/mobile_scorm.py:102-111 | A batch that is not newer changes only `is_updated`, set to false, and the answer is `scorm_data` itself. |
| Scorm.FreshBatchApplies | mobile_api_extensions/mobile_scorm.py:104-111 | A newer batch applies its elements without the clock, stores the truncated incoming time and `is_updated` true, and answers `scorm_data`: every other key holds what applying the elements left there, and no key is added besides the two. |
| Scorm.FreshBatchTimeOrder | mobile_api_extensions/mobile_scorm.py:104-107 | After a newer batch, the stored time is numeric and at most the incoming time. |
| Scorm.DictBatchIgnoresClock | mobile_api_extensions/mobile_scorm.py:103-111 | A dictionary batch does not depend on the clock. |
| Scorm.ListBatchContexts | mobile_api_extensions/mobile_scorm.py:112-113 | A list batch answers one successful context per element. |
| Scorm.MobileScormBlock.ScormSetValues | mobile_api_extensions/mobile_scorm.py:100-113 | The block's new state and the answer are exactly `SetValuesSpec`. |
| Scorm.SplitExtShape | mobile_api_extensions/mobile_scorm.py:144 | `splitext` loses nothing. An extension starts with its only `.`, holds no `/`, and follows a non-empty root that does not end in `/`. |
| Scorm.FileStoragePath | mobile_api_extensions/mobile_scorm.py:135-147 | The package path starts with the block directory followed by the SHA-1. |
| Scorm.FileStoragePathExtension | mobile_api_extensions/mobile_scorm.py:139-146 | What follows the SHA-1 is a suffix of the uploaded name: its extension, or nothing. |
| Scorm.StudentViewData | mobile_api_extensions/mobile_scorm.py:115-133 | Without an index page, the answer is empty. With one, it holds the metadata (`""` and `0` by default), the index page and the absolute storage URL. |
| HtmlBlock.RunLength | mobile_api_extensions/html_block.py:43 | The greedy run of link characters stays within the text and stops at a non-link character or at the end. |
| HtmlBlock.RunLengthChars | mobile_api_extensions/html_block.py:43 | The run consists of link characters only. |
| HtmlBlock.MatchesAtIsPattern | mobile_api_extensions/html_block.py:43 | A match at a position is exactly `/static/` followed by a link character. |
| HtmlBlock.MatchEnd | mobile_api_extensions/html_block.py:43 | A match spans at least the prefix and one character, within the text. |
| HtmlBlock.StepAt | mobile_api_extensions/html_block.py:43-44 | At a match, the next piece is the link and the matched text is `/static/` plus its name; elsewhere the next piece is one copied character. |
| HtmlBlock.NextPiece | mobile_api_extensions/html_block.py:44 | One search step returns the next piece and the position after it. |
| HtmlBlock.SourceOfPieces | mobile_api_extensions/html_block.py:43-44 | The pieces put back together give the original text: only matches are replaced. |
| HtmlBlock.PiecesWellFormed | mobile_api_extensions/html_block.py:43 | Every link names a non-empty run of link characters. |
| HtmlBlock.SavesMatchLinks | mobile_api_extensions/html_block.py:27-29 | Each save passes the matched link and the name after `/static/`. The name holds no `/`, so it is what the split at line 28 leaves last. |
| HtmlBlock.NoMatchNoChange | mobile_api_extensions/html_block.py:43-44 | Text with no match is left unchanged and triggers no save. |
| HtmlBlock.IsModified | mobile_api_extensions/html_block.py:94-102 | The package is stale when it is missing or was created before the block's publication. |
| HtmlBlock.StoreAsset | mobile_api_extensions/html_block.py:70-78 | A found asset is written under `assets/<filename>`; a missing one is skipped. |
| HtmlBlock.StoreAllOnlyAssets | mobile_api_extensions/html_block.py:70-78 | Saving assets writes nothing outside the package's `assets/` directory. |
| HtmlBlock.UpdateIdempotent | mobile_api_extensions/html_block.py:19-21 | After an update at a time no earlier than the publication, the package is fresh and a second update does nothing. |
| HtmlBlock.UpdateWritesPage | mobile_api_extensions/html_block.py:19-48 | A stale package gets the rewritten page at `index.html`, exactly one save attempt per link in page order appended to the old attempts, and a new created time. A fresh one is left alone. |
| HtmlBlock.HtmlBlockPackage.BasePath | mobile_api_extensions/html_block.py:67-68 | The block's directory is `BaseStoragePath` of its location: it starts with the organisation and `/` and ends with `/`. |
| HtmlBlock.HtmlBlockPackage.SaveAssetFile | mobile_api_extensions/html_block.py:70-78 | The storage becomes `StoreAsset` of the old one, and the attempt is recorded. |
| HtmlBlock.HtmlBlockPackage.RewriteStaticLinks | mobile_api_extensions/html_block.py:26-44 | The scan loop returns the rendered pieces, saves every link's asset in order, and leaves the created time alone. |
| HtmlBlock.HtmlBlockPackage.UpdateInfoApi | mobile_api_extensions/html_block.py:19-48 | The new state is `UpdateSpec` of the old one. |
| HtmlBlock.HtmlBlockPackage.StudentViewData | mobile_api_extensions/html_block.py:104-125 | A missing package is built first, so a created time is always answered, with the absolute URL, the size and `index.html`. |
| HtmlBlock.PackagePath | mobile_api_extensions/html_block.py:105 | The package file is `content_html.zip` in the block's directory. |
| Courses.RequiredPermissions | mobile_api_extensions/utils.py:29-34 | The required permissions are those asked for, plus the catalog-visibility permission, always. |
| Courses.NoPermissionsOnlyCatalog | mobile_api_extensions/utils.py:29 | `None` and an empty list both require the catalog permission alone. |
| Courses.IterationOrder | mobile_api_extensions/utils.py:36-38 | Iterating a set yields each element exactly once. |
| Courses.GetCourses | mobile_api_extensions/utils.py:12-40 | The result has no duplicates, and its estimated length is its number of items. |
| Courses.GetCoursesKeepsPermitted | mobile_api_extensions/utils.py:29-36 | A course is listed exactly when it is visible and both the catalog permission and every requested one are granted. |
| Courses.KeepIds | mobile_api_extensions/utils.py:61 | Filtering never lengthens the list. |
| Courses.KeepIdsSubsequence | mobile_api_extensions/utils.py:61 | The kept courses keep their order. |
| Courses.KeepIdsMembers | mobile_api_extensions/utils.py:60-61 | A course is kept exactly when its id is among the search ids. |
| Courses.KeepIdsDistinct | mobile_api_extensions/utils.py:61 | A list without duplicates stays without duplicates. |
| Courses.FilterBySearch | mobile_api_extensions/utils.py:43-65 | With search off, or no or empty term, the input is returned unchanged. Otherwise the estimated length is the number of kept courses. |
| Courses.FilterBySearchKeepsHits | mobile_api_extensions/utils.py:55-61 | With search on, the result is an order-preserving subsequence holding exactly the courses the search found. |
| Courses.ListCourses | mobile_api_extensions/utils.py:106-109 | The estimated length of the list is its number of items. |
| Courses.ListCoursesMembers | mobile_api_extensions/utils.py:68-109 | A listed course is one the effective user may see, and one the search found when search is in force; none is listed twice. |

## Left out

- Iframe replacement (`html_block.py:32-41,45`): HTML parsing with BeautifulSoup is outside the model. The stored page is the link-rewritten text before that step.
- `remove_old_files` and `create_zip_file` (`html_block.py:24,48,50-92`): directory listing and zip writing are file I/O. Creating the package is modelled as recording its created time.
- HtmlBlock.IsStaticChar: `\w` is modelled over ASCII letters, digits and `_`; Python's Unicode word characters beyond ASCII are not.
- The asset key lookup (`html_block.py:71-75`): `StaticContent.get_asset_key_from_path` is modelled as the link itself indexing the asset store.
- AuthCodes.Issue: the source retries without bound. The model consumes a finite sequence of candidate UUIDs and returns None when it runs out, a case the source never reaches.
- Randomness of `uuid.uuid4()`: candidates are inputs. `IsUuid4` states the version and variant bits where a lemma needs them.
- Logging (`models.py:44`, `views.py:72`) and `transaction.atomic` (`models.py:39`): there are no logs in the model, and the transaction is the all-or-nothing `Save`.
- MobileSso.Platform.SendActivationEmail: the profile lookup and the provider's `skip_email_verification` are boolean inputs. `compose_and_send_activation_email` is an effect.
- The social-auth pipeline and `_do_login` (`views.py:96-100,113-117`): their results are inputs and their calls are effects. Only the session key the plugin writes is modelled.
- MobileSso.Platform.Post: the token is minted before the code is cleared, as in the source. A failure between the two steps (an exception, a concurrent request) is not modelled; the model has no concurrency.
- `reverse('sso-deeplink')` and `setting_url(backend, 'LOGIN_ERROR_URL', 'LOGIN_URL')`: URL reversal and settings lookup are string inputs.
- `pipeline._get_url` (`views.py:276-280`): the login redirect is modelled as its route, backend and parameters, not as an encoded URL.
- `BearerToken.create_token` and the OAuth validator class: the token comes from an oracle of the populated fields, the lifetime and the refresh flag.
- Scorm.Runtime: `parse_validate_positive_float` and `get_grade` are total functions here. A parse error that raises is not modelled.
- Scorm.PyLess: comparing two strings (which Python orders) is modelled as a `TypeError`, like every non-numeric comparison. The model keeps numbers and booleans only.
- Scorm.MobileScormBlock: numbers are reals. Python's `True == 1` merging of dictionary keys is not modelled.
- The SCORM block's `studio_submit`, `create_zip_file` and `scorm_get_values` (`mobile_scorm.py:35-40,96-98,149-179`): upload handling, zip extraction and a plain read of `scorm_data` are outside the model.
- `student_view` and the XBlock field declarations: rendering and field metadata are outside the model.
- Scorm.SetValuesSpec: one clock reading `now` serves a whole list batch, while the source calls `time.time()` afresh in each `publish_grade`; the model does not distinguish the readings within one batch.
- Courses.GetCourses: `branding.get_visible_courses` with its organisation and key/value filters is the `visible` input. The query's prefetching and the `function_trace` decorator are left out.
- Courses.GetCourses: the result is a ghost function, because the order of iterating a Python set is unspecified. `IterationOrder` stands for some such order.
- Courses.ListCourses: `get_effective_user(request.user, username)`, including its permission error, is a function input.
- `api.py`, `urls.py`, `auth_urls.py`, the signals, the tasks and the settings are not part of this model.
- I/O, HTTP responses beyond their status, body and location, and concurrency are not modelled.

## Findings

| source | as written | input that shows it | evidently intended | confidence | as-written member | corrected member |
|---|---|---|---|---|---|---|
| mobile_api_extensions/views.py:108-129 | `url` is bound only in the no-user branch (122) and the issued-code branch (128). | An authenticated caller whose pipeline returns no user: `_populate_authorization_code(None)` returns None, so line 129 raises `UnboundLocalError`. | Redirect to the login-error URL with `Status=error`. | high, not executed | MobileSso.CompletionUrlAsWritten, MobileSso.AuthenticatedWithoutUserRaises | MobileSso.CompletionUrl, MobileSso.CompletionUrlStatus, MobileSso.Platform.MobileDoComplete |
| mobile_api_extensions/views.py:243-245 | The clearing looks the code up through `extra_user_info` and then saves the `User`, not the code row. | Any accepted exchange followed by the same request: the code row is never written, so the code is accepted again. | Null the code on its row, so that a code is single use. | high, not executed | MobileSso.ClearCodeAsWritten, MobileSso.ReplayAcceptedAsWritten | MobileSso.ClearCode, MobileSso.ClearCodeRevokes |
| mobile_api_extensions/models.py:37-45 | After an `IntegrityError`, the instance still holds the rejected token, so the recursive call finds a code and returns it. | A user without a code whose first UUID's hex is already stored on another row: the other user's code is returned and nothing is saved. | Generate a fresh candidate and return only a code stored on this user's row. | high, not executed | AuthCodes.IssueAsWritten, AuthCodes.CollisionReturnsForeignCode | AuthCodes.Issue, AuthCodes.IssueSucceedsOnFreeCandidate, AuthCodes.MobileUserAuthTable.SetAuthorizationCode |
