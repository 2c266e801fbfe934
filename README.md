# Streamlit Authenticator cloud portal — verified model

The portal is a small web page where a developer registers an application for
a free Streamlit Authenticator API key, or unsubscribes and deletes the account.
Each action takes two steps. First the page validates the input, asks the
backend whether the address is known, keeps the bcrypt hash of a fresh
four-digit code in the session and e-mails the code. Then the user types the
code into a verification dialog, and the page performs the one backend
mutation (`create_api_key` or `unsubscribe_account`) and forgets the code.

The project has three modules:

- `Utils` (`utils.dfy`) models `utils.py`:
  - `validate_length` and `validate_email`, each one anchored `re.match`. Each
    pattern is restated as an explicit predicate over match positions
    (`LengthPatternMatches`, `EmailPatternMatches`), keeping Python's
    semantics: `.` refuses `'\n'` and `$` also succeeds before one final `'\n'`.
    The computed validators are proved equal to those predicates.
  - `generate_random_verification_code`, as a nondeterministic method.
  - bcrypt's `hash`/`check_hash` and `send_email_general`, reduced to what
    the workflow observes of them.
- `Portal` (`main.dfy`) models `main.py`:
  - A `Session` class with the two slots of `st.session_state`,
    `registerCode` and `unsubscribeCode`, each `None` or a `Hash`.
  - One method per button press.
  - What the text inputs hold, what the backend answers and the salt bcrypt
    draws are parameters. Each method returns what the page shows
    (`Feedback`) and the backend calls it made (`RemoteCall`s).
- `Scenarios` (`scenarios.dfy`) holds client methods that chain button
  presses and are proved from the method contracts alone.

`validate_length` as written does not measure the plain length of its
argument. It accepts a string exactly when, after dropping one final newline
if there is one, the rest holds no newline and has between `min_length` and
`max_length` characters. A 254-character name followed by `"\n"` is
accepted, and a name containing a newline anywhere else is refused. The model
follows the code.

## Model

| member | source | states |
|---|---|---|
| Utils.ValidateLength | utils.py:36-39 | the result is true exactly when the anchored pattern `.{min,max}` matches, where `.` excludes newline and `$` tolerates one final newline; a minimum above the maximum is refused, as Python refuses to compile it |
| Utils.LengthPatternOnStripped | utils.py:36-39 | the length pattern matches iff the string less one final newline holds no newline and has between `lo` and `hi` characters |
| Utils.DefaultLengthBounds | utils.py:36-39 | with the defaults 1 and 254: the empty string and a 255-character line are refused; 1 to 254 characters are accepted; 254 characters plus one newline are accepted; any line plus two newlines is refused |
| Utils.ValidateEmail | utils.py:41-44 | the result is true exactly when the anchored e-mail pattern matches at some `@`, `.` and end position |
| Utils.EmailPatternOnCandidate | utils.py:43 | the e-mail pattern matches iff the text less one final newline splits at its first `@` and at the last dot after it into a 1–254 character local part, a 1–253 character domain part and a 2–63 letter top-level domain |
| Utils.SplitEmailUnique | utils.py:43 | any way of writing the text as `local@domain.tld` with no `@` in `local` or `domain` and no dot in `tld` is the split the validator examines |
| Utils.AcceptedEmailShape | utils.py:43 | an accepted address holds exactly one `@` and no space, and after the last dot of the address less one final newline come 2 to 63 ASCII letters |
| Utils.EmailExampleAccepted | utils.py:43 | `a@b.co` is accepted |
| Utils.EmailExampleRejected | utils.py:43 | `a@b` is refused: no dot follows the `@` |
| Utils.GenerateRandomVerificationCode | utils.py:32-34 | the code is exactly four characters, all decimal digits |
| Utils.ReplaceKeepsDigits | utils.py:34 | removing spaces from the joined digits never changes them |
| Utils.RemoveAll | utils.py:34 | `replace(c, '')` leaves no `c`, keeps every other character present, and is the identity on a string without `c` |
| Utils.HashCode | utils.py:12-14 | the text a hash was made from always checks against it, whatever salt was drawn |
| Utils.CheckHashExact | utils.py:8-14 | a code checks against the hash of a text exactly when it is that text, whatever salt was drawn |
| Utils.SendEmailGeneral | utils.py:16-30 | success is reported whether or not the POST raised |
| Portal.ContainsInfix | main.py:81 | Python's `needle in text` holds whenever the text is some prefix, the needle and some suffix |
| Portal.ContainsSplits | main.py:81 | whenever `needle in text` holds, the text is some prefix, the needle and some suffix |
| Portal.Session.constructor | main.py:71-72 | a new session starts with both slots `None` |
| Portal.Session.RequestRegister | main.py:74-89 | an invalid e-mail is refused first, then an invalid app name, with no backend call and the slot unchanged; the known-address check is the first call; a backend error crashes with the slot unchanged; a fresh four-digit code's hash replaces the slot and the code is mailed to the typed address only when the answer contains "not previously registered", whatever became of the e-mail; otherwise "Email is already registered"; the unsubscribe slot is never touched |
| Portal.Session.VerifyRegister | main.py:31-43 | a press after the code was popped crashes with `KeyError` and calls nothing; anything but four digits is refused; a wrong code shows "Code is incorrect", makes no call and keeps the hash; the right code calls `create_api_key` exactly once with the current inputs, names "None" and plan "FREE", then clears the slot unless the call itself raised, so a full run no longer calls the dialog (`RegisterDialogOffered`, main.py:90-91); success is shown iff the message contains "sent to email successfully"; an error envelope crashes after the slot is cleared; the unsubscribe slot is never touched |
| Portal.Session.RequestUnsubscribe | main.py:98-110 | only the e-mail is validated, with no length check; the hash of a fresh code is stored and the code mailed iff the answer does not contain "not previously registered", otherwise "An account with this email does not exist"; the register slot is never touched |
| Portal.Session.VerifyUnsubscribe | main.py:49-61 | a press after the code was popped crashes with `KeyError` and calls nothing; anything but four digits is refused; a wrong code shows "Code is incorrect", makes no call and keeps the hash; the right code calls `unsubscribe_account` exactly once for the address in the input now, then clears the slot unless the call raised, so a full run no longer calls the dialog (`UnsubscribeDialogOffered`, main.py:111-112); success is shown iff the message contains "deleted successfully" |
| Portal.BoundRegister.Request | main.py:74-89 | as `RequestRegister`, but the validated name and address are stored beside the hash |
| Portal.BoundRegister.Verify | main.py:31-43 | as `VerifyRegister`, including the crash after the pop, but the right code creates the key for the stored name and address |
| Portal.BoundUnsubscribe.Request | main.py:98-110 | as `RequestUnsubscribe`, but the address the code was mailed to is stored beside its hash |
| Portal.BoundUnsubscribe.Verify | main.py:49-61 | as `VerifyUnsubscribe`, including the crash after the pop, but the right code unsubscribes the stored address |
| Scenarios.RegisterRoundTrip | main.py:74-91 | the mailed code is four digits; any other attempt is refused with no backend call and leaves the code pending, after which the mailed code creates exactly one key, for the typed name and address with plan FREE; an attempt equal to the mailed code succeeds at once and the mailed code then crashes on the popped key; either way a full rerun no longer opens the dialog, and one more press in the open dialog crashes and calls nothing |
| Scenarios.SupersededCode | main.py:82-85 | the first request stores the hash of its code although its e-mail failed; after a second request the first code verifies iff the second draw repeated it; the unsubscribe slot stays empty |
| Scenarios.RegistersTypedPair | main.py:35 | the code goes to the requested address, but verification creates the key for whatever name and address are typed by then |
| Scenarios.RegistersRequestedPair | main.py:35 | with the name and address bound to the code, verification creates the key for the pair that was validated and mailed |
| Scenarios.UnsubscribesTypedAddress | main.py:111-112 | the code goes to the requested address, but verification deletes whatever address is typed by then |
| Scenarios.UnsubscribesMailedAddress | main.py:53 | with the address bound to the code, verification deletes the address the code was mailed to |

## Left out

- Streamlit rendering (page config, markdown, images, tabs, the dialog decorator, `st.write(st.session_state)`) is UI only. Button presses and text inputs are method parameters.
- The HTTP helpers `email_previously_registered`, `create_api_key` and `unsubscribe_account` make network calls with secrets. Their results are a `Response` parameter: a JSON body with a message, an error envelope with no `message` key, or an exception the helper raised. `count_calls` is not used by the workflow and is not modelled.
- With a 200 status and a body that is not JSON, `response.json()` raises an exception that may subclass `ValueError`. The request handlers' `except ValueError` would then show its text. The model treats every exception a helper raises as uncaught.
- The `message` value in a JSON body is taken to be a string. `in` on another JSON type is not modelled.
- Randomness: `random.choice` is an arbitrary choice of digit. The distribution is not modelled.
- bcrypt internals: `Hash` keeps the salt and the hashed text, and `check_hash` compares the texts. The stored codes are four digits, but the attempt typed into a dialog is free text: an attempt with a NUL byte, or one longer than 72 bytes on recent bcrypt versions, makes `check_hash` raise `ValueError`, which the dialog does not catch. The model refuses such an attempt as "Code is incorrect" instead. Truncation at 72 bytes on older versions is left out as well.
- `send_email_general`: printing the swallowed exception is left out.
- `st.session_state.pop` is modelled as setting the slot to `None`. A full run of the script re-initialises a missing key to `None` (main.py:71-72, 96-97) and then opens no dialog. A press inside a dialog that stayed open reruns only the dialog, so there a popped key is read and raises `KeyError`; the verify methods model that press as a crash on an empty slot. A slot holding `None` while its dialog is open cannot arise.
- Streamlit opens at most one dialog per script run. While codes are pending in both slots, main.py:91 opens the register dialog and the call at main.py:112 raises instead of opening the unsubscribe dialog. The model does not capture that exception or which dialog is open; `RegisterDialogOffered` and `UnsubscribeDialogOffered` each say only that their slot is pending.
- Concurrent sessions of different users are not modelled. Each `Session` is one browser session, and each method is one press; a full rerun between presses changes no slot, which `RegisterDialogOffered` and `UnsubscribeDialogOffered` read.

## Findings

| source | as written | input that shows it | evidently intended | confidence | as-written member | corrected member |
|---|---|---|---|---|---|---|
| main.py:53 | the unsubscribe dialog is handed the address in the text input at verification time (main.py:112), and only the code's hash is stored (main.py:106), so the right code deletes whatever address is typed by then | request a code for `me@x.com`, receive it, change the e-mail field to `victim@x.com`, enter the code: `unsubscribe_account("victim@x.com")` is called | delete the account whose mailbox received the code | medium, not executed | Scenarios.UnsubscribesTypedAddress | Scenarios.UnsubscribesMailedAddress |
| main.py:35 | the register dialog is handed the name and address in the text inputs at verification time (main.py:91), and only the code's hash is stored (main.py:83), so the right code creates a key for whatever pair is typed by then, unvalidated | request a code for app `a` and `me@x.com`, receive it, change the e-mail field to `other@y.com`, enter the code: `create_api_key("a", "other@y.com", "None", "None", "FREE")` is called | create the key for the validated pair whose mailbox received the code | medium, not executed | Scenarios.RegistersTypedPair | Scenarios.RegistersRequestedPair |
