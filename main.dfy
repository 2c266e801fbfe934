/*******************************************************************************
 *  main.py of the Streamlit Authenticator cloud portal: the two-step
 *  (request, then verify) one-time-code workflow for registering an API key
 *  and for unsubscribing. The per-session state is the pair of slots
 *  `register_code` and `unsubscribe_code` of `st.session_state`, each empty or
 *  holding the bcrypt hash of the code last e-mailed. Every button press is one
 *  method; what the text inputs hold and what the backend answers are its
 *  parameters.
 *******************************************************************************/

module Portal {
  import opened Utils

  /** What a backend helper (`email_previously_registered`, `create_api_key`,
      `unsubscribe_account`) hands back: the decoded JSON of a 200 answer,
      which carries a `message`; the error envelope built for any other status,
      which has no `message` key; or an exception the request itself raised. */
  datatype Response =
    | Message(text: string)
    | ErrorEnvelope(error: string)
    | Raised(exception: string)

  /** A call into the backend, with the arguments it was given. `SendEmail`
      records an attempted dispatch: `send_email_general` was called, whether
      or not its POST went out. */
  datatype RemoteCall =
    | EmailPreviouslyRegistered(email: string)
    | CreateApiKey(appName: string, email: string, firstName: string, lastName: string, plan: string)
    | UnsubscribeAccount(email: string)
    | SendEmail(subject: string, content: string, recipient: string, emailType: string)

  /** What the page shows after a button press: nothing, `st.error`,
      `st.success`, or an exception that nothing catches. */
  datatype Feedback =
    | NoMessage
    | ErrorShown(text: string)
    | SuccessShown(text: string)
    | Crashed(exception: string)

  const EmailNotValid := "Email is not valid"
  const AppNameNotValid := "Application name is not valid"
  const AlreadyRegistered := "Email is already registered"
  const AccountMissing := "An account with this email does not exist"
  const CodeIncorrect := "Code is incorrect"
  const UnableToSubscribe := "Unable to subscribe"
  const UnableToUnsubscribe := "Unable to unsubscribe"
  const ApiKeySent := "API key sent to email"
  const Unsubscribed := "Account unsubscribed successfully"

  const NotPreviouslyRegistered := "not previously registered"
  const SentSuccessfully := "sent to email successfully"
  const DeletedSuccessfully := "deleted successfully"

  const CodeSubject := "Streamlit Authenticator Verification Code"
  const CodeEmailType := "2FA"
  const FreePlan := "FREE"
  const NoName := "None"

  /** `result['message']` on an answer without that key. */
  const MissingKey := "KeyError"

  /** Python's `needle in text` on strings: `needle` starts at some position
      of `text`. */
  predicate Contains(text: string, needle: string) {
    exists i | 0 <= i <= |text| - |needle| :: needle <= text[i..]
  }

  /** A text that has `needle` between some prefix and suffix contains it. */
  lemma ContainsInfix(prefix: string, needle: string, suffix: string)
    ensures Contains(prefix + needle + suffix, needle)
  {
    var text := prefix + needle + suffix;
    assert needle <= text[|prefix|..];
  }

  /** A text that contains `needle` is some prefix, `needle` and some suffix. */
  lemma ContainsSplits(text: string, needle: string)
    requires Contains(text, needle)
    ensures exists i | 0 <= i <= |text| - |needle| :: text == text[..i] + needle + text[i + |needle|..]
  {
    var i :| 0 <= i <= |text| - |needle| && needle <= text[i..];
    assert text == text[..i] + needle + text[i + |needle|..];
  }

  /** The exception a helper's answer raises when the handler reads
      `result['message']`, if it does. */
  function Uncaught(r: Response): string
    requires !r.Message?
  {
    match r
    case ErrorEnvelope(_) => MissingKey
    case Raised(exception) => exception
  }

  /** `h` is the hash of a four-digit code. */
  ghost predicate IsCodeHash(h: Hash) {
    IsVerificationCode(h.preimage)
  }

  /** A slot is empty or holds the hash of a four-digit code. */
  ghost predicate HoldsCodeHash(slot: Option<Hash>) {
    slot.Some? ==> IsCodeHash(slot.value)
  }

  /** The e-mail that carries a fresh code to `recipient`, with the code read
      back from it. */
  predicate CodeEmail(call: RemoteCall, recipient: string) {
    call.SendEmail? && call.subject == CodeSubject && call.recipient == recipient &&
    call.emailType == CodeEmailType && IsVerificationCode(call.content)
  }

  class Session {
    /** `st.session_state['register_code']`; `None` also stands for the key
        after `pop`, which the next run re-initialises to `None`. */
    var registerCode: Option<Hash>
    /** `st.session_state['unsubscribe_code']` */
    var unsubscribeCode: Option<Hash>

    /** Only hashes of four-digit codes are ever pending. */
    ghost predicate Valid()
      reads this
    {
      HoldsCodeHash(registerCode) && HoldsCodeHash(unsubscribeCode)
    }

    /** The first run of a session: neither slot holds a code. */
    constructor ()
      ensures Valid()
      ensures registerCode == None && unsubscribeCode == None
    {
      registerCode := None;
      unsubscribeCode := None;
    }

    /** A full run of the page calls the register verification dialog
        while a code is pending. */
    predicate RegisterDialogOffered()
      reads this
    {
      registerCode.Some?
    }

    /** A full run of the page calls the unsubscribe verification dialog
        while a code is pending. */
    predicate UnsubscribeDialogOffered()
      reads this
    {
      unsubscribeCode.Some?
    }

    /** "Generate API key": validate the inputs, ask the backend whether the
        address is known and, if it is not, store the hash of a fresh code and
        e-mail the code. `registered` is the backend's answer, `post` what
        became of the e-mail and `salt` the salt bcrypt draws. */
    method RequestRegister(appName: string, email: string, registered: Response,
                           post: PostOutcome, salt: string)
      returns (feedback: Feedback, calls: seq<RemoteCall>)
      requires Valid()
      modifies this`registerCode
      ensures Valid()
      ensures unsubscribeCode == old(unsubscribeCode)
      ensures !ValidateEmail(email) ==>
                feedback == ErrorShown(EmailNotValid) && calls == [] &&
                registerCode == old(registerCode)
      ensures ValidateEmail(email) && !ValidateLength(appName, DefaultMinLength, DefaultMaxLength) ==>
                feedback == ErrorShown(AppNameNotValid) && calls == [] &&
                registerCode == old(registerCode)
      ensures ValidateEmail(email) && ValidateLength(appName, DefaultMinLength, DefaultMaxLength) ==>
                |calls| >= 1 && calls[0] == EmailPreviouslyRegistered(email)
      ensures ValidateEmail(email) && ValidateLength(appName, DefaultMinLength, DefaultMaxLength) &&
              !registered.Message? ==>
                feedback == Crashed(Uncaught(registered)) && |calls| == 1 &&
                registerCode == old(registerCode)
      ensures ValidateEmail(email) && ValidateLength(appName, DefaultMinLength, DefaultMaxLength) &&
              registered.Message? && !Contains(registered.text, NotPreviouslyRegistered) ==>
                feedback == ErrorShown(AlreadyRegistered) && |calls| == 1 &&
                registerCode == old(registerCode)
      ensures ValidateEmail(email) && ValidateLength(appName, DefaultMinLength, DefaultMaxLength) &&
              registered.Message? && Contains(registered.text, NotPreviouslyRegistered) ==>
                feedback == NoMessage && |calls| == 2 && CodeEmail(calls[1], email) &&
                registerCode == Some(HashCode(calls[1].content, salt))
    {
      calls := [];
      if !ValidateEmail(email) {
        feedback := ErrorShown(EmailNotValid);
        return;
      }
      if !ValidateLength(appName, DefaultMinLength, DefaultMaxLength) {
        feedback := ErrorShown(AppNameNotValid);
        return;
      }
      calls := [EmailPreviouslyRegistered(email)];
      if !registered.Message? {
        feedback := Crashed(Uncaught(registered));
        return;
      }
      if Contains(registered.text, NotPreviouslyRegistered) {
        var code := GenerateRandomVerificationCode();
        registerCode := Some(HashCode(code, salt));
        var _ := SendEmailGeneral(CodeSubject, code, email, CodeEmailType, post);
        calls := [EmailPreviouslyRegistered(email), SendEmail(CodeSubject, code, email, CodeEmailType)];
        feedback := NoMessage;
      } else {
        feedback := ErrorShown(AlreadyRegistered);
      }
    }

    /** "Verify code" in the register dialog. `appName` and `email` are what
        the text inputs hold now, not what they held when the code was
        requested; `created` is the backend's answer to `create_api_key`.
        The dialog is opened only while a code is pending, but it stays open
        after the code is popped, and a press there reruns the dialog alone:
        reading the popped key then raises `KeyError`. */
    method VerifyRegister(code: string, appName: string, email: string, created: Response)
      returns (feedback: Feedback, calls: seq<RemoteCall>)
      requires Valid()
      modifies this`registerCode
      ensures Valid()
      ensures unsubscribeCode == old(unsubscribeCode)
      ensures old(registerCode) == None ==>
                feedback == Crashed(MissingKey) && calls == [] && registerCode == None
      ensures old(registerCode) != None && !IsVerificationCode(code) ==>
                feedback == ErrorShown(CodeIncorrect) && calls == []
      ensures old(registerCode) != None && !CheckHash(code, old(registerCode).value) ==>
                feedback == ErrorShown(CodeIncorrect) && calls == [] &&
                registerCode == old(registerCode)
      ensures old(registerCode) != None && CheckHash(code, old(registerCode).value) ==>
                calls == [CreateApiKey(appName, email, NoName, NoName, FreePlan)]
      ensures old(registerCode) != None && CheckHash(code, old(registerCode).value) && created.Raised? ==>
                feedback == Crashed(created.exception) && registerCode == old(registerCode)
      ensures old(registerCode) != None && CheckHash(code, old(registerCode).value) && !created.Raised? ==>
                registerCode == None
      ensures old(registerCode) != None && CheckHash(code, old(registerCode).value) &&
              created.ErrorEnvelope? ==>
                feedback == Crashed(MissingKey)
      ensures old(registerCode) != None && CheckHash(code, old(registerCode).value) && created.Message? ==>
                feedback == if Contains(created.text, SentSuccessfully)
                            then SuccessShown(ApiKeySent) else ErrorShown(UnableToSubscribe)
    {
      calls := [];
      if registerCode == None {
        feedback := Crashed(MissingKey);
        return;
      }
      if !CheckHash(code, registerCode.value) {
        feedback := ErrorShown(CodeIncorrect);
        return;
      }
      calls := [CreateApiKey(appName, email, NoName, NoName, FreePlan)];
      if created.Raised? {
        feedback := Crashed(created.exception);
        return;
      }
      registerCode := None;
      if !created.Message? {
        feedback := Crashed(MissingKey);
      } else if Contains(created.text, SentSuccessfully) {
        feedback := SuccessShown(ApiKeySent);
      } else {
        feedback := ErrorShown(UnableToSubscribe);
      }
    }

    /** "Unsubscribe": validate the address (its length is not checked), ask
        the backend whether it is known and, if it is, store the hash of a
        fresh code and e-mail the code. */
    method RequestUnsubscribe(email: string, registered: Response, post: PostOutcome, salt: string)
      returns (feedback: Feedback, calls: seq<RemoteCall>)
      requires Valid()
      modifies this`unsubscribeCode
      ensures Valid()
      ensures registerCode == old(registerCode)
      ensures !ValidateEmail(email) ==>
                feedback == ErrorShown(EmailNotValid) && calls == [] &&
                unsubscribeCode == old(unsubscribeCode)
      ensures ValidateEmail(email) ==>
                |calls| >= 1 && calls[0] == EmailPreviouslyRegistered(email)
      ensures ValidateEmail(email) && !registered.Message? ==>
                feedback == Crashed(Uncaught(registered)) && |calls| == 1 &&
                unsubscribeCode == old(unsubscribeCode)
      ensures ValidateEmail(email) && registered.Message? &&
              Contains(registered.text, NotPreviouslyRegistered) ==>
                feedback == ErrorShown(AccountMissing) && |calls| == 1 &&
                unsubscribeCode == old(unsubscribeCode)
      ensures ValidateEmail(email) && registered.Message? &&
              !Contains(registered.text, NotPreviouslyRegistered) ==>
                feedback == NoMessage && |calls| == 2 && CodeEmail(calls[1], email) &&
                unsubscribeCode == Some(HashCode(calls[1].content, salt))
    {
      calls := [];
      if !ValidateEmail(email) {
        feedback := ErrorShown(EmailNotValid);
        return;
      }
      calls := [EmailPreviouslyRegistered(email)];
      if !registered.Message? {
        feedback := Crashed(Uncaught(registered));
        return;
      }
      if Contains(registered.text, NotPreviouslyRegistered) {
        feedback := ErrorShown(AccountMissing);
        return;
      }
      var code := GenerateRandomVerificationCode();
      unsubscribeCode := Some(HashCode(code, salt));
      var _ := SendEmailGeneral(CodeSubject, code, email, CodeEmailType, post);
      calls := [EmailPreviouslyRegistered(email), SendEmail(CodeSubject, code, email, CodeEmailType)];
      feedback := NoMessage;
    }

    /** "Verify code" in the unsubscribe dialog. `email` is what the text
        input holds now; `deleted` is the backend's answer to
        `unsubscribe_account`. A press after the code was popped raises
        `KeyError`, as in `VerifyRegister`. */
    method VerifyUnsubscribe(code: string, email: string, deleted: Response)
      returns (feedback: Feedback, calls: seq<RemoteCall>)
      requires Valid()
      modifies this`unsubscribeCode
      ensures Valid()
      ensures registerCode == old(registerCode)
      ensures old(unsubscribeCode) == None ==>
                feedback == Crashed(MissingKey) && calls == [] && unsubscribeCode == None
      ensures old(unsubscribeCode) != None && !IsVerificationCode(code) ==>
                feedback == ErrorShown(CodeIncorrect) && calls == []
      ensures old(unsubscribeCode) != None && !CheckHash(code, old(unsubscribeCode).value) ==>
                feedback == ErrorShown(CodeIncorrect) && calls == [] &&
                unsubscribeCode == old(unsubscribeCode)
      ensures old(unsubscribeCode) != None && CheckHash(code, old(unsubscribeCode).value) ==>
                calls == [UnsubscribeAccount(email)]
      ensures old(unsubscribeCode) != None && CheckHash(code, old(unsubscribeCode).value) &&
              deleted.Raised? ==>
                feedback == Crashed(deleted.exception) && unsubscribeCode == old(unsubscribeCode)
      ensures old(unsubscribeCode) != None && CheckHash(code, old(unsubscribeCode).value) &&
              !deleted.Raised? ==>
                unsubscribeCode == None
      ensures old(unsubscribeCode) != None && CheckHash(code, old(unsubscribeCode).value) &&
              deleted.ErrorEnvelope? ==>
                feedback == Crashed(MissingKey)
      ensures old(unsubscribeCode) != None && CheckHash(code, old(unsubscribeCode).value) &&
              deleted.Message? ==>
                feedback == if Contains(deleted.text, DeletedSuccessfully)
                            then SuccessShown(Unsubscribed) else ErrorShown(UnableToUnsubscribe)
    {
      calls := [];
      if unsubscribeCode == None {
        feedback := Crashed(MissingKey);
        return;
      }
      if !CheckHash(code, unsubscribeCode.value) {
        feedback := ErrorShown(CodeIncorrect);
        return;
      }
      calls := [UnsubscribeAccount(email)];
      if deleted.Raised? {
        feedback := Crashed(deleted.exception);
        return;
      }
      unsubscribeCode := None;
      if !deleted.Message? {
        feedback := Crashed(MissingKey);
      } else if Contains(deleted.text, DeletedSuccessfully) {
        feedback := SuccessShown(Unsubscribed);
      } else {
        feedback := ErrorShown(UnableToUnsubscribe);
      }
    }
  }

  /** A registration request bound to the application name and the address
      that were validated and to which the code was mailed. */
  datatype PendingRegister = PendingRegister(codeHash: Hash, appName: string, email: string)

  /** The register flow with the validated name and address kept beside the
      hash, so that the key is created for the pair whose mailbox received
      the code. */
  class BoundRegister {
    var pending: Option<PendingRegister>

    ghost predicate Valid()
      reads this
    {
      pending.Some? ==> IsCodeHash(pending.value.codeHash)
    }

    constructor ()
      ensures Valid() && pending == None
    {
      pending := None;
    }

    /** As `Session.RequestRegister`, but the name and address are stored
        with the hash. */
    method Request(appName: string, email: string, registered: Response, post: PostOutcome, salt: string)
      returns (feedback: Feedback, calls: seq<RemoteCall>)
      requires Valid()
      modifies this`pending
      ensures Valid()
      ensures !ValidateEmail(email) ==>
                feedback == ErrorShown(EmailNotValid) && calls == [] && pending == old(pending)
      ensures ValidateEmail(email) && !ValidateLength(appName, DefaultMinLength, DefaultMaxLength) ==>
                feedback == ErrorShown(AppNameNotValid) && calls == [] && pending == old(pending)
      ensures ValidateEmail(email) && ValidateLength(appName, DefaultMinLength, DefaultMaxLength) ==>
                |calls| >= 1 && calls[0] == EmailPreviouslyRegistered(email)
      ensures ValidateEmail(email) && ValidateLength(appName, DefaultMinLength, DefaultMaxLength) &&
              !registered.Message? ==>
                feedback == Crashed(Uncaught(registered)) && |calls| == 1 && pending == old(pending)
      ensures ValidateEmail(email) && ValidateLength(appName, DefaultMinLength, DefaultMaxLength) &&
              registered.Message? && !Contains(registered.text, NotPreviouslyRegistered) ==>
                feedback == ErrorShown(AlreadyRegistered) && |calls| == 1 && pending == old(pending)
      ensures ValidateEmail(email) && ValidateLength(appName, DefaultMinLength, DefaultMaxLength) &&
              registered.Message? && Contains(registered.text, NotPreviouslyRegistered) ==>
                feedback == NoMessage && |calls| == 2 && CodeEmail(calls[1], email) &&
                pending == Some(PendingRegister(HashCode(calls[1].content, salt), appName, email))
    {
      calls := [];
      if !ValidateEmail(email) {
        feedback := ErrorShown(EmailNotValid);
        return;
      }
      if !ValidateLength(appName, DefaultMinLength, DefaultMaxLength) {
        feedback := ErrorShown(AppNameNotValid);
        return;
      }
      calls := [EmailPreviouslyRegistered(email)];
      if !registered.Message? {
        feedback := Crashed(Uncaught(registered));
        return;
      }
      if Contains(registered.text, NotPreviouslyRegistered) {
        var code := GenerateRandomVerificationCode();
        pending := Some(PendingRegister(HashCode(code, salt), appName, email));
        var _ := SendEmailGeneral(CodeSubject, code, email, CodeEmailType, post);
        calls := [EmailPreviouslyRegistered(email), SendEmail(CodeSubject, code, email, CodeEmailType)];
        feedback := NoMessage;
      } else {
        feedback := ErrorShown(AlreadyRegistered);
      }
    }

    /** As `Session.VerifyRegister`, but the key is created for the stored
        name and address, whatever the text inputs hold by now. */
    method Verify(code: string, created: Response)
      returns (feedback: Feedback, calls: seq<RemoteCall>)
      requires Valid()
      modifies this`pending
      ensures Valid()
      ensures old(pending) == None ==>
                feedback == Crashed(MissingKey) && calls == [] && pending == None
      ensures old(pending) != None && !IsVerificationCode(code) ==>
                feedback == ErrorShown(CodeIncorrect) && calls == []
      ensures old(pending) != None && !CheckHash(code, old(pending).value.codeHash) ==>
                feedback == ErrorShown(CodeIncorrect) && calls == [] && pending == old(pending)
      ensures old(pending) != None && CheckHash(code, old(pending).value.codeHash) ==>
                calls == [CreateApiKey(old(pending).value.appName, old(pending).value.email,
                                       NoName, NoName, FreePlan)]
      ensures old(pending) != None && CheckHash(code, old(pending).value.codeHash) && created.Raised? ==>
                feedback == Crashed(created.exception) && pending == old(pending)
      ensures old(pending) != None && CheckHash(code, old(pending).value.codeHash) && !created.Raised? ==>
                pending == None
      ensures old(pending) != None && CheckHash(code, old(pending).value.codeHash) &&
              created.ErrorEnvelope? ==>
                feedback == Crashed(MissingKey)
      ensures old(pending) != None && CheckHash(code, old(pending).value.codeHash) &&
              created.Message? ==>
                feedback == if Contains(created.text, SentSuccessfully)
                            then SuccessShown(ApiKeySent) else ErrorShown(UnableToSubscribe)
    {
      calls := [];
      if pending == None {
        feedback := Crashed(MissingKey);
        return;
      }
      if !CheckHash(code, pending.value.codeHash) {
        feedback := ErrorShown(CodeIncorrect);
        return;
      }
      calls := [CreateApiKey(pending.value.appName, pending.value.email, NoName, NoName, FreePlan)];
      if created.Raised? {
        feedback := Crashed(created.exception);
        return;
      }
      pending := None;
      if !created.Message? {
        feedback := Crashed(MissingKey);
      } else if Contains(created.text, SentSuccessfully) {
        feedback := SuccessShown(ApiKeySent);
      } else {
        feedback := ErrorShown(UnableToSubscribe);
      }
    }
  }

  /** An unsubscription request bound to the address its code was mailed to. */
  datatype PendingUnsubscribe = PendingUnsubscribe(codeHash: Hash, email: string)

  /** The unsubscribe flow with the address kept beside the hash, so that the
      account deleted is the one whose mailbox received the code. */
  class BoundUnsubscribe {
    var pending: Option<PendingUnsubscribe>

    ghost predicate Valid()
      reads this
    {
      pending.Some? ==> IsCodeHash(pending.value.codeHash)
    }

    constructor ()
      ensures Valid() && pending == None
    {
      pending := None;
    }

    /** As `Session.RequestUnsubscribe`, but the address is stored with the hash. */
    method Request(email: string, registered: Response, post: PostOutcome, salt: string)
      returns (feedback: Feedback, calls: seq<RemoteCall>)
      requires Valid()
      modifies this`pending
      ensures Valid()
      ensures !ValidateEmail(email) ==>
                feedback == ErrorShown(EmailNotValid) && calls == [] && pending == old(pending)
      ensures ValidateEmail(email) ==>
                |calls| >= 1 && calls[0] == EmailPreviouslyRegistered(email)
      ensures ValidateEmail(email) && !registered.Message? ==>
                feedback == Crashed(Uncaught(registered)) && |calls| == 1 && pending == old(pending)
      ensures ValidateEmail(email) && registered.Message? &&
              Contains(registered.text, NotPreviouslyRegistered) ==>
                feedback == ErrorShown(AccountMissing) && |calls| == 1 && pending == old(pending)
      ensures ValidateEmail(email) && registered.Message? &&
              !Contains(registered.text, NotPreviouslyRegistered) ==>
                feedback == NoMessage && |calls| == 2 && CodeEmail(calls[1], email) &&
                pending == Some(PendingUnsubscribe(HashCode(calls[1].content, salt), email))
    {
      calls := [];
      if !ValidateEmail(email) {
        feedback := ErrorShown(EmailNotValid);
        return;
      }
      calls := [EmailPreviouslyRegistered(email)];
      if !registered.Message? {
        feedback := Crashed(Uncaught(registered));
        return;
      }
      if Contains(registered.text, NotPreviouslyRegistered) {
        feedback := ErrorShown(AccountMissing);
        return;
      }
      var code := GenerateRandomVerificationCode();
      pending := Some(PendingUnsubscribe(HashCode(code, salt), email));
      var _ := SendEmailGeneral(CodeSubject, code, email, CodeEmailType, post);
      calls := [EmailPreviouslyRegistered(email), SendEmail(CodeSubject, code, email, CodeEmailType)];
      feedback := NoMessage;
    }

    /** As `Session.VerifyUnsubscribe`, but the account unsubscribed is the
        stored address, whatever the text input holds by now. */
    method Verify(code: string, deleted: Response)
      returns (feedback: Feedback, calls: seq<RemoteCall>)
      requires Valid()
      modifies this`pending
      ensures Valid()
      ensures old(pending) == None ==>
                feedback == Crashed(MissingKey) && calls == [] && pending == None
      ensures old(pending) != None && !IsVerificationCode(code) ==>
                feedback == ErrorShown(CodeIncorrect) && calls == []
      ensures old(pending) != None && !CheckHash(code, old(pending).value.codeHash) ==>
                feedback == ErrorShown(CodeIncorrect) && calls == [] && pending == old(pending)
      ensures old(pending) != None && CheckHash(code, old(pending).value.codeHash) ==>
                calls == [UnsubscribeAccount(old(pending).value.email)]
      ensures old(pending) != None && CheckHash(code, old(pending).value.codeHash) && deleted.Raised? ==>
                feedback == Crashed(deleted.exception) && pending == old(pending)
      ensures old(pending) != None && CheckHash(code, old(pending).value.codeHash) && !deleted.Raised? ==>
                pending == None
      ensures old(pending) != None && CheckHash(code, old(pending).value.codeHash) &&
              deleted.ErrorEnvelope? ==>
                feedback == Crashed(MissingKey)
      ensures old(pending) != None && CheckHash(code, old(pending).value.codeHash) &&
              deleted.Message? ==>
                feedback == if Contains(deleted.text, DeletedSuccessfully)
                            then SuccessShown(Unsubscribed) else ErrorShown(UnableToUnsubscribe)
    {
      calls := [];
      if pending == None {
        feedback := Crashed(MissingKey);
        return;
      }
      if !CheckHash(code, pending.value.codeHash) {
        feedback := ErrorShown(CodeIncorrect);
        return;
      }
      calls := [UnsubscribeAccount(pending.value.email)];
      if deleted.Raised? {
        feedback := Crashed(deleted.exception);
        return;
      }
      pending := None;
      if !deleted.Message? {
        feedback := Crashed(MissingKey);
      } else if Contains(deleted.text, DeletedSuccessfully) {
        feedback := SuccessShown(Unsubscribed);
      } else {
        feedback := ErrorShown(UnableToUnsubscribe);
      }
    }
  }
}
