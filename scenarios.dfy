/*******************************************************************************
 *  Clients of the workflow: sequences of button presses and what the page and
 *  the backend see, proved from the contracts of `Portal.Session` and
 *  `Portal.BoundUnsubscribe` alone.
 *******************************************************************************/

module Scenarios {
  import opened Utils
  import opened Portal

  /** Register `appName` for `email` and mail a code. An attempt other than
      the mailed code is refused with no backend call and leaves the code
      pending; the mailed code then creates the key once, for the typed name
      and address with plan FREE and names "None", and clears the code, so a
      full rerun closes the dialog. Pressing "Verify code" once more in the
      dialog that stayed open crashes on the popped key and calls nothing.
      An attempt that happens to be the mailed code succeeds at once. */
  method RegisterRoundTrip(appName: string, email: string, lookup: string, attempt: string,
                           created: string, salt: string)
    returns (mailed: string, first: Feedback, firstCalls: seq<RemoteCall>,
             second: Feedback, secondCalls: seq<RemoteCall>,
             reopened: bool, repeated: Feedback, repeatedCalls: seq<RemoteCall>)
    requires ValidateEmail(email) && ValidateLength(appName, DefaultMinLength, DefaultMaxLength)
    requires Contains(lookup, NotPreviouslyRegistered)
    requires Contains(created, SentSuccessfully)
    ensures IsVerificationCode(mailed)
    ensures attempt != mailed ==>
              first == ErrorShown(CodeIncorrect) && firstCalls == [] &&
              second == SuccessShown(ApiKeySent) &&
              secondCalls == [CreateApiKey(appName, email, NoName, NoName, FreePlan)]
    ensures attempt == mailed ==>
              first == SuccessShown(ApiKeySent) &&
              firstCalls == [CreateApiKey(appName, email, NoName, NoName, FreePlan)] &&
              second == Crashed(MissingKey) && secondCalls == []
    ensures !reopened
    ensures repeated == Crashed(MissingKey) && repeatedCalls == []
  {
    var session := new Session();
    var requested, sent := session.RequestRegister(appName, email, Message(lookup), Posted, salt);
    mailed := sent[1].content;
    first, firstCalls := session.VerifyRegister(attempt, appName, email, Message(created));
    assert attempt != mailed ==> session.registerCode == Some(HashCode(mailed, salt));
    second, secondCalls := session.VerifyRegister(mailed, appName, email, Message(created));
    reopened := session.RegisterDialogOffered();
    repeated, repeatedCalls := session.VerifyRegister(mailed, appName, email, Message(created));
  }

  /** Two register requests in a row: the first stores its hash although its
      e-mail failed to go out; the second replaces it, so the first code
      verifies only if the second draw happened to repeat it. Neither request
      touches the unsubscribe slot. */
  method SupersededCode(appName: string, email: string, lookup: string, created: string,
                        salt1: string, salt2: string)
    returns (first: string, stored: Option<Hash>, second: string, attempt: Feedback, untouched: bool)
    requires ValidateEmail(email) && ValidateLength(appName, DefaultMinLength, DefaultMaxLength)
    requires Contains(lookup, NotPreviouslyRegistered)
    requires Contains(created, SentSuccessfully)
    ensures IsVerificationCode(first) && IsVerificationCode(second)
    ensures stored == Some(HashCode(first, salt1))
    ensures first != second ==> attempt == ErrorShown(CodeIncorrect)
    ensures first == second ==> attempt == SuccessShown(ApiKeySent)
    ensures untouched
  {
    var session := new Session();
    var f1, c1 := session.RequestRegister(appName, email, Message(lookup), PostRaised("timeout"), salt1);
    first := c1[1].content;
    stored := session.registerCode;
    var f2, c2 := session.RequestRegister(appName, email, Message(lookup), Posted, salt2);
    second := c2[1].content;
    var calls;
    attempt, calls := session.VerifyRegister(first, appName, email, Message(created));
    untouched := session.unsubscribeCode == None;
  }

  /** As written, the register dialog creates the key for whatever name and
      address the text inputs hold when the code is entered, not the pair that
      was validated and to whose mailbox the code was sent. */
  method RegistersTypedPair(appName: string, email: string, typedApp: string, typedEmail: string,
                            lookup: string, salt: string, createdAnswer: Response)
    returns (mailedTo: string, created: seq<RemoteCall>)
    requires ValidateEmail(email) && ValidateLength(appName, DefaultMinLength, DefaultMaxLength)
    requires Contains(lookup, NotPreviouslyRegistered)
    ensures mailedTo == email
    ensures created == [CreateApiKey(typedApp, typedEmail, NoName, NoName, FreePlan)]
  {
    var session := new Session();
    var f1, c1 := session.RequestRegister(appName, email, Message(lookup), Posted, salt);
    mailedTo := c1[1].recipient;
    var f2;
    f2, created := session.VerifyRegister(c1[1].content, typedApp, typedEmail, createdAnswer);
  }

  /** With the name and address bound to the pending code, the same presses
      create the key for exactly the pair that was validated and mailed. */
  method RegistersRequestedPair(appName: string, email: string, lookup: string, salt: string,
                                createdAnswer: Response)
    returns (mailedTo: string, created: seq<RemoteCall>)
    requires ValidateEmail(email) && ValidateLength(appName, DefaultMinLength, DefaultMaxLength)
    requires Contains(lookup, NotPreviouslyRegistered)
    ensures mailedTo == email
    ensures created == [CreateApiKey(appName, email, NoName, NoName, FreePlan)]
  {
    var binding := new BoundRegister();
    var f1, c1 := binding.Request(appName, email, Message(lookup), Posted, salt);
    mailedTo := c1[1].recipient;
    var f2;
    f2, created := binding.Verify(c1[1].content, createdAnswer);
  }

  /** As written, the unsubscribe dialog deletes whatever address the text
      input holds when the code is entered, not the address the code was
      mailed to. */
  method UnsubscribesTypedAddress(requested: string, typed: string, lookup: string,
                                  salt: string, deletedAnswer: Response)
    returns (mailedTo: string, deleted: seq<RemoteCall>)
    requires ValidateEmail(requested)
    requires !Contains(lookup, NotPreviouslyRegistered)
    ensures mailedTo == requested
    ensures deleted == [UnsubscribeAccount(typed)]
  {
    var session := new Session();
    var f1, c1 := session.RequestUnsubscribe(requested, Message(lookup), Posted, salt);
    mailedTo := c1[1].recipient;
    var f2;
    f2, deleted := session.VerifyUnsubscribe(c1[1].content, typed, deletedAnswer);
  }

  /** With the address bound to the pending code, the same presses unsubscribe
      exactly the address the code was mailed to. */
  method UnsubscribesMailedAddress(requested: string, lookup: string, salt: string,
                                   deletedAnswer: Response)
    returns (mailedTo: string, deleted: seq<RemoteCall>)
    requires ValidateEmail(requested)
    requires !Contains(lookup, NotPreviouslyRegistered)
    ensures mailedTo == requested
    ensures deleted == [UnsubscribeAccount(requested)]
  {
    var binding := new BoundUnsubscribe();
    var f1, c1 := binding.Request(requested, Message(lookup), Posted, salt);
    mailedTo := c1[1].recipient;
    var f2;
    f2, deleted := binding.Verify(c1[1].content, deletedAnswer);
  }
}
