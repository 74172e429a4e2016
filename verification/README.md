# SkinCare core, modelled in Dafny

SkinCare is a small skincare-clinic site. It has a Spring backend that registers
accounts and a set of browser scripts. The scripts keep a notification centre, drive a
few widgets (profile dropdown, support chat, tabs, light/dark theme) and check the
profile form. This project models three parts of it as immutable datatypes and pure
transition functions, and proves properties about them:

- **Registration** (`Users`, `Registration`). The `users` entity and the
  `POST /register` handler. The handler runs its checks in a fixed order: the passwords
  must match, no field may be blank, and the email must be unused. The first failing
  check decides the error flash, and it leaves the table alone. A request that passes
  all three inserts exactly one row and redirects to the login view. The table is a map
  from email (the unique column) to row, plus the next identity value.
- **Notification centre** (`Notifications`). A list of notifications, newest first.
  Covered are prepend-on-add, mark-as-read on the first id match, the unread badge
  (capped at "99+"), the five-item preview in the navigation bar, clear-all, the
  relative age buckets of `getTimeAgo`, the icon class, and the booking and
  clinic-update notifications.
- **Widgets and validators** (`Dropdown`, `MenuNavigation`, `Chat`, `Tabs`, `Theme`,
  `Validators`). Most of these are copied between `.ts` and `.js` files, and each is
  modelled once, citing the copies. The copies of the chat widget do not all have the
  same handlers; "## Left out" lists which copy lacks which. The email and phone regular expressions are written as
  character-level predicates. Scanning implementations are proved equal to them.

`Text` holds what the others share. It defines the two white-space classes: ECMAScript's
(used by `\s` and `trim`) and Java's `Character.isWhitespace` (used by `String.isBlank`).
They differ: U+00A0 is white space to the browser but not to the backend. It also holds
`trim`, white-space removal and decimal rendering. `Wrappers` holds `Option`.

Some behaviours of the code are stated as lemmas rather than smoothed over:
- For inputs that are neither `email` nor `tel`, `validateField` never shows
  "This field is required". A blank value is exempt from errors, and a non-blank value
  is valid.
- `addTab` with an active tab can leave two active tabs. The recorded active id then
  names the new tab, but `getActiveTab` still returns the earlier one.
- The controller does not check the declared column lengths of 50.

## Model

| member | source | states |
|---|---|---|
| Text.IsBlank | SkinCare/src/main/java/com/skincare/controller/UserController.java:27 | The empty string is blank. Anything the backend calls blank is white space to the browser too, except the separator controls 0x1C-0x1F, which only Java counts |
| Text.NoBreakSpaceIsBlankOnlyInBrowser | SkinCare/src/main/java/com/skincare/controller/UserController.java:27 | A field holding only U+00A0 is not blank to the backend's `isBlank`, although the browser's `\s` counts U+00A0 as white space |
| Text.TrimStart | SkinCare/components.ts:120 | The result is a suffix of the input; everything dropped is white space; the result does not start with white space |
| Text.TrimEnd | SkinCare/components.ts:120 | The result is a prefix of the input; everything dropped is white space; the result does not end with white space |
| Text.Trim | SkinCare/components.ts:120 | `trim` gives a contiguous piece of the input; everything before and after it is white space; the piece neither starts nor ends with white space |
| Text.TrimOfTrimmed | SkinCare/components.ts:120 | A string with no white space at either end is its own trim |
| Text.TrimIdempotent | SkinCare/components.ts:120 | Trimming twice is the same as trimming once |
| Text.TrimStartSkipsPadding | SkinCare/chat.js:116 | White space in front of a string that starts with a non-space is exactly what the front trim removes |
| Text.TrimEndSkipsPadding | SkinCare/chat.js:116 | White space behind a string that ends with a non-space is exactly what the back trim removes |
| Text.TrimRemovesPadding | SkinCare/chat.js:116 | Any white space around a trimmed, non-empty text is removed by `trim`, giving back that text |
| Text.RemoveSpaces | SkinCare/components.ts:388 | `replace(/\s/g, '')` leaves no white space, keeps a space-free string as it is, and adds no characters |
| Text.RemoveSpacesAppend | SkinCare/utils.ts:205 | Removing white space from a concatenation is removing it from each part |
| Text.NatToString | SkinCare/app.js:899 | `toString()` of a count writes at least one decimal digit, with no leading zero, and one digit exactly for counts below 10 |
| Text.NatToStringRoundTrip | SkinCare/app.js:899 | Reading the written digits back gives the count they were written from |
| Text.NatToStringInjective | SkinCare/app.js:899 | Different counts are written differently |
| Users.NewUser | SkinCare/src/main/java/com/skincare/model/User.java:20-24 | The constructor keeps name, email and password as given; the id stays at Java's default of 0 |
| Users.SetUserId | SkinCare/src/main/java/com/skincare/model/User.java:28 | `setUserID` changes the id to the argument and nothing else |
| Users.SetName | SkinCare/src/main/java/com/skincare/model/User.java:31 | `setName` changes the name to the argument; email, password and id are unchanged |
| Users.SetPassword | SkinCare/src/main/java/com/skincare/model/User.java:37 | `setPassword` changes the password to the argument and nothing else |
| Users.SetEmailAsWritten | SkinCare/src/main/java/com/skincare/model/User.java:34 | The written `setEmail` assigns the parameter to itself: the email afterwards is the email before, and nothing changes |
| Users.SetEmailAsWrittenLosesUpdate | SkinCare/src/main/java/com/skincare/model/User.java:34 | For every user and every address different from the user's own, `setEmail` then `getEmail` does not give the new address but still the old one |
| Users.SetEmail | SkinCare/src/main/java/com/skincare/model/User.java:34 | The corrected setter changes the email to the argument and nothing else |
| Users.SetEmailReadsBack | SkinCare/src/main/java/com/skincare/model/User.java:33-34 | After the corrected setter, the getter returns the address set; setting twice equals setting the last value once |
| Users.AccessorsReadBack | SkinCare/src/main/java/com/skincare/model/User.java:20-37 | The getters return the constructor's arguments; the name, password and id setters read back what they set and keep the email |
| Registration.ExistsByEmail | SkinCare/src/main/java/com/skincare/controller/UserController.java:32 | On a well-formed table, the email is taken iff some row carries exactly that email |
| Registration.Save | SkinCare/src/main/java/com/skincare/controller/UserController.java:37-38 | Saving a user with an unused email adds exactly that key, with the next identity assigned; every existing row stays as it was |
| Registration.RegisterUser | SkinCare/src/main/java/com/skincare/controller/UserController.java:23-41 | There is exactly one flash, "error" or "success". Success happens iff the passwords match, no field is blank and the email is unused. Each error message appears iff its own check is the first to fail. Errors leave the table unchanged and go to the signup view. Success adds exactly the row (next id, name, email, password) and nothing else, with "Registration successful" and the login view |
| Registration.RegisterPreservesValid | SkinCare/src/main/java/com/skincare/controller/UserController.java:32-38 | Every row stays keyed by its own email, and identities stay distinct and below the next one |
| Registration.RegisterGrowsByAtMostOne | SkinCare/src/main/java/com/skincare/controller/UserController.java:23-41 | The table grows by one row on success and by none otherwise |
| Registration.MismatchReportedBeforeBlankFields | SkinCare/src/main/java/com/skincare/controller/UserController.java:23-30 | For any name and email, blank or not, mismatched passwords give exactly the "Passwords do not match" error with the signup view, and the table is unchanged |
| Registration.RepeatedRegistrationIsRejected | SkinCare/src/main/java/com/skincare/controller/UserController.java:32-38 | Repeating a successful request gives "Email already exists" with the signup view, and the table does not change |
| Registration.TakenEmailRejectedForAnyCredentials | SkinCare/src/main/java/com/skincare/controller/UserController.java:32-35 | Once any email is registered, every well-formed request for it gives exactly the "Email already exists" error with the signup view, whatever name and password it carries, and the table is unchanged |
| Registration.AnnRegistersOnce | SkinCare/src/main/java/com/skincare/controller/UserController.java:23-41 | On an empty table, Ann's first request stores the single row with id 1; the identical second request is refused and the table keeps one row |
| Registration.OverlongNamePassesController | SkinCare/src/main/java/com/skincare/model/User.java:11-12 | The controller accepts a 51-character name, and the saved row then exceeds the declared column length of 50 |
| Notifications.UnreadCount | SkinCare/app.js:898 | The unread count is at most the list length, and it is 0 iff every notification is read |
| Notifications.UnreadCountAppend | SkinCare/app.js:898 | The unread count of a concatenation is the sum of the parts' counts |
| Notifications.AddNotification | SkinCare/app.js:301-310 | The new item is prepended to the unchanged old list. It carries the payload's type, title, message and details. Its id, timestamp and read flag default to the clock reading, the clock reading and false, and payload values override them |
| Notifications.AddRaisesUnreadCount | SkinCare/app.js:301-310 | Adding a notification raises the unread count by one, unless the payload marks it read |
| Notifications.FirstIndexOf | SkinCare/app.js:978 | `find` by id returns the first position holding that id, or none iff no item has it |
| Notifications.MarkAsRead | SkinCare/app.js:977-986 | With no match, the list is unchanged. Otherwise only the first match has its read flag set, and every other item and field is untouched |
| Notifications.FirstIndexOfIs | SkinCare/app.js:978 | A position holding the id with no earlier match is what `find` returns |
| Notifications.MarkAsReadIdempotent | SkinCare/app.js:977-986 | Marking the same id twice equals marking it once |
| Notifications.MarkAsReadLowersUnreadCount | SkinCare/app.js:977-986 | Marking lowers the unread count by one exactly when the first match was unread; otherwise the count is unchanged |
| Notifications.BadgeFor | SkinCare/app.js:895-907 | The badge is shown iff something is unread. Its text is "99+" above 99; otherwise it is decimal digits with no leading zero that read back as the unread count. The text is 1 to 3 characters long |
| Notifications.NavPreview | SkinCare/app.js:909-933 | An empty list gives the empty state. Otherwise the preview is the first min(5, length) notifications, in list order |
| Notifications.NewestIsPreviewed | SkinCare/app.js:924 | After an add, the preview is non-empty and headed by the new notification |
| Notifications.ClearAll | SkinCare/app.js:968-969 | Clearing leaves an empty list |
| Notifications.ClearAllResetsViews | SkinCare/app.js:968-975 | After clearing, the unread count is 0, the badge reads "0" and is hidden, and the preview is the empty state |
| Notifications.MinutesThenHours | SkinCare/app.js:418-423 | Flooring milliseconds to minutes and then to hours is flooring straight to hours |
| Notifications.HoursThenDays | SkinCare/app.js:423-426 | Flooring milliseconds to hours and then to days is flooring straight to days |
| Notifications.TimeAgo | SkinCare/app.js:415-430 | Under a minute gives `JustNow`; a week or more gives `OnDate`. Between those, the result is the largest unit (minutes below 60, hours below 24, days below 7) whose count is at least 1, and the count is the floor of the difference in that unit |
| Notifications.CountText | SkinCare/app.js:421 | A count written with a unit letter is decimal digits without a leading zero, then the letter, then " ago"; the digits read back as the count |
| Notifications.AgeText | SkinCare/app.js:420-429 | A just-now age is written "Just now"; a week or more is the date text; a counted age is its count without leading zeros, then its own unit letter (m, h or d), then " ago" |
| Notifications.AgeTextReadsBack | SkinCare/app.js:415-429 | From a minute to under a week, the text is a count n at least 1, a unit letter and " ago", with n units at most the difference and n+1 units more; the letter is m exactly below an hour, h from an hour to under a day, and d from a day on |
| Notifications.AgeTextOutsideCounts | SkinCare/app.js:420-429 | Under a minute the text is "Just now"; from a week on it is the date text |
| Notifications.IconClass | SkinCare/app.js:378-386 | booking, reminder and update map to themselves, clinic_update maps to clinic-update, and anything else maps to booking |
| Notifications.OrDefault | SkinCare/app.js:512 | JavaScript's logical-or default gives the value when it is present and non-empty, otherwise the fallback |
| Notifications.BookingPayload | SkinCare/app.js:507-516 | The booking notification has type booking and the fixed title. Its details are the service (defaulting to "Skincare Consultation"), the clinic name, and date and time. It carries no id, timestamp or read flag |
| Notifications.ClinicPayload | SkinCare/app.js:522-531 | The clinic-update notification has type clinic_update and the fixed title. Its details are the clinic name, the update type (defaulting to "General Update"), and "View Details" |
| Notifications.HandleNewBooking | SkinCare/app.js:506-519 | A new unread booking stamped with the clock reading is prepended; the unread count rises by one |
| Notifications.HandleClinicUpdate | SkinCare/app.js:521-534 | A new unread clinic update stamped with the clock reading is prepended and shows the clinic-update icon; the unread count rises by one |
| Validators.IndexOf | SkinCare/components.ts:382 | Returns the first position of a character, or none iff the character is absent |
| Validators.ScanEmailIsSound | SkinCare/components.ts:381-384 | Any string the scan accepts matches the email pattern, with the first '@' and a '.' inside the domain as the pattern's two positions |
| Validators.ScanEmailIsComplete | SkinCare/components.ts:381-384 | Any string matching the email pattern is accepted by the scan, since the pattern's '@' is the only one |
| Validators.ScanEmailMatchesPattern | SkinCare/components.ts:381-384 | The scanning validator accepts a string iff `^[^\s@]+@[^\s@]+\.[^\s@]+$` matches it: a non-empty part before the one '@', a '.' after it with a character on each side, and no other '@' or white space |
| Validators.ValidateEmail | SkinCare/components.ts:381-384 | `validateEmail` accepts a string iff it matches the pattern as read off `^[^\s@]+@[^\s@]+\.[^\s@]+$`: a non-empty part before an '@', a '.' after it with a character on each side, and no other '@' or white space |
| Validators.EmailHasOneAt | SkinCare/utils.ts:198-201 | A string with two '@' is refused |
| Validators.EmailHasNoSpace | SkinCare/components.js:391-394 | A string with white space anywhere is refused |
| Validators.EmailAcceptsAddress | utils.js:189-192 | "a@b.co" is accepted |
| Validators.EmailRefusesMissingDot | utils.js:189-192 | "ann@site", with no dot after the '@', is refused |
| Validators.EmailRefusesEmptyLocalPart | SkinCare/utils.ts:198-201 | "@example.com", with nothing before the '@', is refused |
| Validators.ValidatePhone | SkinCare/components.ts:386-389 | Accepts iff the input with white space removed is an optional '+', then a digit 1-9, then 0 to 15 digits; an accepted string is 1 to 17 characters once white space is removed |
| Validators.PhoneIgnoresGrouping | SkinCare/utils.ts:203-206 | A space between two groups of digits does not change the verdict |
| Validators.PhoneDigitCount | SkinCare/components.js:396-399 | An accepted number has 1 to 16 digits after the optional '+', all of them ASCII digits |
| Validators.PhoneAcceptsInternational | utils.js:194-197 | "+4420" is accepted |
| Validators.PhoneRefusesLeadingZero | utils.js:194-197 | "020" is refused |
| Validators.ValidateField | SkinCare/components.ts:327-357 | An email field shows "Please enter a valid email address" iff its value is not blank and fails the email pattern; a tel field shows "Please enter a valid phone number" iff its value is not blank and, with white space removed, fails the phone pattern; any other field is always left clear |
| Validators.TelFieldErrorRule | SkinCare/components.ts:344-356 | A tel field shows its error exactly for a non-blank value whose white-space-free text fails the phone pattern |
| Validators.BlankFieldNeverFlagged | SkinCare/components.js:364-366 | A value made only of white space never shows an error, whatever the input type |
| Validators.RequiredMessageNeverShown | SkinCare/components.ts:349-356 | For any type other than email and tel, no error is ever shown, so "This field is required" never appears |
| Validators.EmailFieldErrorRule | SkinCare/components.js:350-366 | An email field shows its error iff the value is not blank and the email pattern does not match it |
| Dropdown.Initial | SkinCare/components.ts:7 | A new dropdown is closed |
| Dropdown.Toggle | SkinCare/components.ts:32-38 | A trigger click flips the open state |
| Dropdown.Open | SkinCare/components.js:54-57 | `open` leaves the dropdown open |
| Dropdown.Close | SkinCare/components.ts:63-66 | `close` leaves the dropdown closed |
| Dropdown.HandleOutsideClick | SkinCare/components.ts:40-45 | A click outside both the trigger and the menu closes the dropdown; a click on either leaves it as it is |
| Dropdown.ToggleInvolution | SkinCare/components.js:28-62 | Toggling twice restores the state; `open` and `close` are idempotent and ignore the previous state |
| Dropdown.HandleTriggerKey | index-app.ts:54-65 | Enter or Space on the icon flips the open state (close if open, else open); other keys change nothing |
| Dropdown.TriggerKeyIsToggle | SkinCare/index-app.js:41-52 | The Enter/Space handler equals the click toggle, and pressing it twice restores the state |
| MenuNavigation.NextIndex | index-app.ts:85-88 | ArrowDown focuses the next link, wrapping from the last to the first; the result is always a valid index |
| MenuNavigation.PrevIndex | SkinCare/index-app.js:77-80 | ArrowUp focuses the previous link, wrapping from the first to the last; the result is always a valid index |
| MenuNavigation.UpUndoesDown | index-app.ts:87-92 | Up after Down, and Down after Up, returns to the starting link |
| MenuNavigation.PressDown | SkinCare/index-app.js:72-75 | Any number of ArrowDown presses stays on a valid link |
| MenuNavigation.PressDownIsRotation | index-app.ts:87 | k presses of ArrowDown (k at most n) move k places forward, wrapping once past the end |
| MenuNavigation.FullCircle | index-app.ts:87 | n presses of ArrowDown return to the starting link |
| MenuNavigation.HandleKeyNavigation | SkinCare/index-app.js:70-88 | ArrowDown and ArrowUp move the focus round the links and keep the menu as it is. Escape closes the menu and focuses the trigger. Other keys change nothing |
| Chat.IsOpen | SkinCare/chat.js:150-152 | `isOpen` holds iff the box is not hidden; on a box whose two classes agree, iff it carries `chat-open` |
| Chat.Open | SkinCare/chat.js:77-79 | `open` drops `hidden` and adds `chat-open`, so `isOpen` holds |
| Chat.Close | SkinCare/chat.js:88-90 | `close` adds `hidden` and drops `chat-open`, so `isOpen` fails |
| Chat.OpenCloseRoundTrip | SkinCare/components.js:149-158 | `open` and `close` are idempotent and each undoes the other; on a consistent box already in the target state they change nothing |
| Chat.HandleEscapeKey | SkinCare/chat.js:108-113 | Escape closes an open chat; other keys, or a hidden chat, leave the box unchanged |
| Chat.HandleOutsideClick | SkinCare/components.js:160-168 | A click outside both the chat box and the icon closes an open chat; any other click, or a hidden chat, leaves it unchanged |
| Chat.HandleIconKey | SkinCare/chat.js:69-74 | Enter or Space on the chat icon opens the chat; other keys change nothing |
| Chat.EventsKeepConsistent | SkinCare/components.js:170-179 | Escape, outside clicks and icon keys keep the two classes in agreement, so `isOpen` agrees with `chat-open` |
| Chat.QuestionsAreTrimmed | SkinCare/chat.js:12-18 | Every listed question starts and ends with a non-space, so trimming the page text can find it |
| Chat.AnswersDifferFromFallback | SkinCare/chat.js:12-18 | Every listed answer is non-empty, so the lookup never falls through to the apology, and it differs from the apology |
| Chat.Answer | SkinCare/components.ts:120-121 | The answer is never empty. It is the listed answer for the trimmed text (absent text reads as empty) when there is one, and the fixed apology otherwise |
| Chat.KnownQuestionAnswered | index-app.ts:194-196 | A listed question with any white space around it gets its own answer, never the apology |
| Chat.UnknownQuestionGetsFallback | SkinCare/chat.js:116-118 | Absent text, or text whose trim is not a listed question, gets the apology |
| Tabs.TabFor | SkinCare/components.ts:187-191 | A tab's id is its non-empty `data-tab-id`, else `tab-<index>`; its label is the trimmed text; it is active iff the element has the `active` class |
| Tabs.LastActive | SkinCare/components.js:208-210 | Returns the last active position, or none iff no tab is active |
| Tabs.Init | SkinCare/components.ts:183-201 | One tab per element, in document order. The active id is the last active tab's id, or empty when no tab is active |
| Tabs.ActivateOnly | SkinCare/components.ts:205-207 | Every tab becomes active iff its id is the target; the length, order, ids and labels are kept |
| Tabs.SwitchTab | SkinCare/components.js:216-222 | After `switchTab(t)`, each tab is active iff its id is t, nothing else about the tabs changes, and the active id is t |
| Tabs.GetActiveTab | SkinCare/components.ts:237-239 | Returns the first active tab, or none iff no tab is active |
| Tabs.IndexOfId | SkinCare/components.ts:206 | Returns the first position with the given id, or none iff the id is absent |
| Tabs.SwitchThenGetActive | SkinCare/components.ts:203-239 | After `switchTab(t)`, `getActiveTab` returns the first tab with id t, now active, or none when no tab has id t |
| Tabs.SwitchTabIdempotent | SkinCare/components.js:216-225 | Switching to the same tab twice equals switching once |
| Tabs.AddTab | SkinCare/components.ts:241-257 | The tab is appended and the existing tabs are unchanged. The active id becomes the new tab's id iff the new tab is active |
| Tabs.AddTabKeepsFirstActive | SkinCare/components.js:250-257 | Appending a tab changes `getActiveTab` only when no tab was active before |
| Tabs.AddActiveTabDisagrees | SkinCare/components.ts:250-253 | After adding an active tab to a row that already has one, the active id names the new tab while `getActiveTab` returns the old one |
| Theme.Name | SkinCare/utils.ts:6 | A theme's name is "light" or "dark" |
| Theme.LoadTheme | SkinCare/utils.ts:14-22 | A saved "dark" or "light" is used as it is; no saved value, or any other value, defers to the system preference |
| Theme.ApplyTheme | SkinCare/utils.ts:34-36 | The page's `data-theme` shows the current theme; storage is untouched |
| Theme.NewThemeManager | utils.js:4-9 | The constructor ends with the loaded theme applied to the page; storage and the system preference are untouched |
| Theme.ToggleTheme | SkinCare/utils.ts:24-32 | Light and dark swap. The new name is saved under "skincare-theme" and no other key changes. The page shows the new theme |
| Theme.GetCurrentTheme | utils.js:35-37 | The result is "light" or "dark", and it is "dark" iff the theme is dark |
| Theme.ToggleTwiceRestores | utils.js:21-29 | Toggling twice restores the theme and leaves the original theme's name saved |
| Theme.ToggledThemeSurvivesReload | SkinCare/utils.ts:14-31 | After a toggle, the next page load picks up the toggled theme, whatever the system preference is then |
| Theme.UnknownSavedValueIgnored | utils.js:11-18 | A saved value other than "dark" or "light" is ignored in favour of the system preference |

## Left out

- Persistence and I/O. The Spring repository, JPA and HTTP binding are not modelled, nor is `localStorage` with its JSON encoding. `existsByEmail` and `save` are exact-key lookup and insertion on a map. The notification list, theme storage and page attributes are plain values.
- The check-then-insert race between `existsByEmail` and `save` in the controller: this is concurrency, and the model is sequential.
- The declared column length of 50 is not enforced by the model; the database enforces it on insert, and a failing insert is not modelled. `Users.FitsColumns` states the three lengths, and `Registration.OverlongNamePassesController` shows that the controller does not check them. The other column constraints are kept: email uniqueness holds because the store is keyed by email (`Registration.Valid`, and `Registration.Save` requires the email to be new), and the not-null constraints hold by construction because Dafny strings cannot be null.
- The 32-bit width of the `int` identity column: ids are unbounded integers drawn from a counter.
- Registration.RegisterUser: assumes the identity is the store's next counter value. The database's own identity sequence, which may skip values, is not modelled.
- Notifications.AddNotification: `Date.now()` and `new Date().toISOString()` are two separate clock reads. The model takes both from one `now` in milliseconds. The ISO string form of the timestamp is not modelled.
- Notifications.AgeText: the date text for items a week old or more (`toLocaleDateString`) is its parameter `dateText`.
- Notifications.TimeAgo: an unparseable timestamp (NaN difference) is not modelled.
- Notifications.MarkAsRead: the earlier definition of `markNotificationAsRead` (app.js lines 442-449) is shadowed by the later one, and only the later one is modelled. The two have the same effect on the list.
- Chat.Answer: JavaScript property lookup also finds keys inherited from `Object.prototype` (for example a question reading "constructor"). The model treats the responses as a plain map.
- Booking and clinic data missing `clinicName`, `date` or `time` make the script write "undefined" into the message. The model takes these fields as strings.
- DOM rendering and effects: `innerHTML`, toasts, `escapeHtml`, animations, ripple effects, focus moves other than the menu's, ARIA attributes, `preventDefault`/`stopPropagation`, `setTimeout` highlights and the `tabchange` event.
- The chat widget's copies differ in their handlers, and the model has each handler once. `ChatComponent` in `components.ts` has no Escape or outside-click handling (lines 154-163). `components.js` adds both (lines 160-175), and `chat.js` has both (lines 98-113). `index-app.ts` closes on Escape (lines 162-166) but has no outside-click handler. So `Chat.HandleEscapeKey` and `Chat.HandleOutsideClick` do not describe `components.ts`, and `Chat.HandleOutsideClick` does not describe `index-app.ts`.
- Chat.Answer: the question text comes from the click's target element in `components.ts` and `components.js`, but from the `.question` element itself in `chat.js` and `index-app.ts`. They differ when the click lands on a child element of a question. The model takes the text as given.
- `validateField` on an input outside a `.field` wrapper returns early. The model covers only inputs inside one.
- Other parts of the repository: `handleUpdate` and profile saving, `app.ts` and the compiled `dist/app.js` (bootstrapping and logging), `notifications.js` (storage events and timers), the `.d.ts` declaration files, `SkinCareWebApplication`, `WebConfig` and `DBtest` (framework setup and a connectivity check), `formatDate`, `generateId`, `debounce` and `throttle`.

## Findings

| source | as written | input that shows it | evidently intended | confidence | as-written member | corrected member |
|---|---|---|---|---|---|---|
| SkinCare/src/main/java/com/skincare/model/User.java:34 | `setEmail` assigns its parameter to itself, because the parameter shadows the field, so the email never changes | a user with email ann@example.com, then `setEmail("ann@example.org")`: `getEmail()` still returns ann@example.com | `this.email = email`, so the getter returns the address just set | high, not executed | Users.SetEmailAsWritten, Users.SetEmailAsWrittenLosesUpdate | Users.SetEmail, Users.SetEmailReadsBack |
