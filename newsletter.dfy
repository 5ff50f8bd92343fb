/**
 * The newsletter sign-up form: two ordered checks on the email, then the
 * loading and subscribed flags set in a fixed order.
 */
module Newsletter {
  import opened Text

  /** How `handleSubscribe` ends: at the first check, at the second, or subscribed. */
  datatype Outcome = MissingEmail | InvalidEmail | Subscribed

  /** The checks in source order: emptiness first, then the presence of "@" and of ".". */
  function CheckEmail(email: string): Outcome {
    if email == "" then MissingEmail
    else if !Includes(email, "@") || !Includes(email, ".") then InvalidEmail
    else Subscribed
  }

  /** Each outcome in terms of the email's characters; the empty email is refused before anything else. */
  lemma CheckEmailSpec(email: string)
    ensures CheckEmail(email) == MissingEmail <==> email == []
    ensures CheckEmail(email) == InvalidEmail <==> email != [] && ('@' !in email || '.' !in email)
    ensures CheckEmail(email) == Subscribed <==> '@' in email && '.' in email
  {
    IncludesChar(email, '@');
    IncludesChar(email, '.');
  }

  /** Containing a one-character string is containing that character. */
  lemma {:induction false} IncludesChar(s: string, c: char)
    ensures Includes(s, [c]) <==> c in s
    decreases |s|
  {
    if s != [] {
      IncludesChar(s[1..], c);
      assert s == [s[0]] + s[1..];
    }
  }

  /** One state update the handler performs. */
  datatype FlagWrite = SetLoading(loading: bool) | SetSubscribed(subscribed: bool)

  /** The updates each outcome performs, in order. */
  function WritesFor(o: Outcome): seq<FlagWrite> {
    if o == Subscribed then [SetLoading(true), SetSubscribed(true), SetLoading(false)] else []
  }

  /** The (loading, subscribed) flags after a sequence of updates. */
  function Replay(writes: seq<FlagWrite>, loading: bool, subscribed: bool): (bool, bool)
    decreases |writes|
  {
    if writes == [] then (loading, subscribed)
    else match writes[0]
      case SetLoading(b) => Replay(writes[1..], b, subscribed)
      case SetSubscribed(b) => Replay(writes[1..], loading, b)
  }

  /** The accepted path ends subscribed and not loading, whatever the flags were before. */
  lemma ReplayAccepted(loading: bool, subscribed: bool)
    ensures Replay(WritesFor(Subscribed), loading, subscribed) == (false, true)
  {
    var w := WritesFor(Subscribed);
    assert w[1..] == [SetSubscribed(true), SetLoading(false)];
    assert w[1..][1..] == [SetLoading(false)];
    assert w[1..][1..][1..] == [];
  }

  /**
   * Loading is entered, and the subscribed flag is raised, only for an email
   * that passed both checks; a refused email leaves both flags as they were;
   * an accepted one ends subscribed and no longer loading.
   */
  lemma WritesSpec(email: string, loading: bool, subscribed: bool)
    ensures SetLoading(true) in WritesFor(CheckEmail(email)) <==> '@' in email && '.' in email
    ensures SetSubscribed(true) in WritesFor(CheckEmail(email)) <==> '@' in email && '.' in email
    ensures CheckEmail(email) != Subscribed ==>
              Replay(WritesFor(CheckEmail(email)), loading, subscribed) == (loading, subscribed)
    ensures CheckEmail(email) == Subscribed ==>
              Replay(WritesFor(CheckEmail(email)), loading, subscribed) == (false, true)
  {
    CheckEmailSpec(email);
    ReplayAccepted(loading, subscribed);
  }

  /** The page's state. */
  class NewsletterPage {
    var email: string
    var isLoading: bool
    var isSubscribed: bool

    constructor ()
      ensures email == "" && !isLoading && !isSubscribed
    {
      email := "";
      isLoading := false;
      isSubscribed := false;
    }

    /** The email input's `onChange`. */
    method SetEmail(value: string)
      modifies this
      ensures email == value && isLoading == old(isLoading) && isSubscribed == old(isSubscribed)
    {
      email := value;
    }

    /**
     * `handleSubscribe`, with the simulated request taken as succeeding at once.
     * `writes` lists the flag updates in the order they happen.
     */
    method HandleSubscribe() returns (outcome: Outcome, writes: seq<FlagWrite>)
      modifies this
      ensures outcome == CheckEmail(email) && email == old(email)
      ensures writes == WritesFor(outcome)
      ensures (isLoading, isSubscribed) == Replay(writes, old(isLoading), old(isSubscribed))
    {
      writes := [];
      if email == "" {
        outcome := MissingEmail;
        return;
      }
      if !Includes(email, "@") || !Includes(email, ".") {
        outcome := InvalidEmail;
        return;
      }
      isLoading := true;
      writes := writes + [SetLoading(true)];
      isSubscribed := true;
      writes := writes + [SetSubscribed(true)];
      isLoading := false;
      writes := writes + [SetLoading(false)];
      outcome := Subscribed;
      ReplayAccepted(old(isLoading), old(isSubscribed));
    }
  }
}
