/** The two validators that routes/suppliers.js and routes/umkm.js each declare,
    word for word the same, and the checks both routers run on a create and on a
    profile update. */
module Contacts {
  import opened Text
  import opened Http
  import Auth

  // ---------------------------------------------------------------- validateEmail

  /** `[^<>()\[\]\\.,;:\s@"]`: a character of an atom of the local part or of a
      domain label. */
  predicate AtomChar(c: char) {
    c !in "<>()[]\\.,;:@\"" && !IsSpace(c)
  }

  predicate AllAtom(s: string) {
    forall i :: 0 <= i < |s| ==> AtomChar(s[i])
  }

  /** `A+(\.A+)*`: non-empty atoms separated by single dots. */
  predicate IsDotAtom(s: string) {
    var atoms := Split(s, '.');
    forall i :: 0 <= i < |atoms| ==> atoms[i] != [] && AllAtom(atoms[i])
  }

  /** `".+"`: a double quote, at least one character that is not a line
      terminator, a double quote. */
  predicate IsQuoted(s: string) {
    && |s| >= 3 && s[0] == '"' && s[|s| - 1] == '"'
    && forall i :: 0 < i < |s| - 1 ==> !IsLineTerminator(s[i])
  }

  /** `(A+\.)+A{2,}`: at least two non-empty labels separated by dots, the last
      at least two characters long. */
  predicate IsDomain(s: string) {
    var labels := Split(s, '.');
    && |labels| >= 2
    && (forall i :: 0 <= i < |labels| ==> labels[i] != [] && AllAtom(labels[i]))
    && |labels[|labels| - 1]| >= 2
  }

  /** The whole pattern, anchored at both ends: some '@' splits the text into a
      local part (dotted atoms or a quoted string) and a domain. */
  predicate IsAddress(s: string) {
    exists at | 0 <= at < |s| :: s[at] == '@' && (IsDotAtom(s[..at]) || IsQuoted(s[..at])) && IsDomain(s[at + 1..])
  }

  /** `validateEmail`: the pattern matched against the lower-cased text. */
  predicate ValidateEmail(email: string) {
    IsAddress(ToLower(email))
  }

  // ---------------------------------------------------------------- validatePhoneNumber

  /** `/^62\d{10,18}$/.test(phoneNumber)`. */
  predicate ValidatePhoneNumber(phone: string) {
    12 <= |phone| <= 20 && phone[..2] == "62" && AllDigits(phone[2..])
  }

  /** The pattern's own reading: "62" followed by 10 to 18 decimal digits. */
  ghost predicate PhoneParts(phone: string, digits: string) {
    phone == "62" + digits && 10 <= |digits| <= 18 && AllDigits(digits)
  }

  lemma PhoneNumberIsPattern(phone: string)
    ensures ValidatePhoneNumber(phone) <==> exists digits :: PhoneParts(phone, digits)
  {
    if ValidatePhoneNumber(phone) {
      assert phone == "62" + phone[2..];
      assert PhoneParts(phone, phone[2..]);
    }
    if exists digits :: PhoneParts(phone, digits) {
      var digits :| PhoneParts(phone, digits);
      assert phone[2..] == digits;
    }
  }

  /** Every number this validator accepts also passes the register handler's
      length rule, which counts characters of any kind. */
  lemma ValidPhoneMeetsRegisterLength(phone: string)
    requires ValidatePhoneNumber(phone)
    ensures 12 <= |phone| <= 20 && AllDigits(phone)
  {
    assert forall i :: 2 <= i < |phone| ==> phone[i] == phone[2..][i - 2];
  }

  /** The converse fails: a number written with a leading '+' passes registration
      and is refused by this validator. */
  lemma PlusPrefixedPhoneRefused()
    ensures var phone := "+6281234567890"; 12 <= |phone| <= 20 && !ValidatePhoneNumber(phone)
  {
    var phone := "+6281234567890";
    assert phone[..2] != "62" by {
      assert phone[..2][0] == '+';
    }
  }

  // ---------------------------------------------------------------- comparing with registration

  /** Characters of the pieces of a split on '.' are the characters of the text
      other than '.'. */
  lemma AtomPiecesCover(s: string)
    requires forall j :: 0 <= j < |Split(s, '.')| ==> AllAtom(Split(s, '.')[j])
    ensures forall i :: 0 <= i < |s| ==> s[i] == '.' || AtomChar(s[i])
  {
    SplitPiecesCover(s, '.', AtomChar);
  }

  /** A domain has a '.' with text on either side of it, and every other
      character is an atom character. */
  lemma DomainHasInnerDot(d: string) returns (dot: nat)
    requires IsDomain(d)
    ensures 0 < dot < |d| - 1 && d[dot] == '.'
    ensures forall i :: 0 <= i < |d| ==> d[i] == '.' || AtomChar(d[i])
  {
    AtomPiecesCover(d);
    var labels := Split(d, '.');
    JoinAfterSplit(d, '.');
    var tail := Join(labels[1..], '.');
    assert d == labels[0] + ['.'] + tail;
    assert |tail| >= 1 by {
      if |labels[1..]| > 1 {
        assert tail == labels[1] + ['.'] + Join(labels[2..], '.');
      }
    }
    dot := |labels[0]|;
  }

  /** A dotted-atom local part is not empty, and holds only atom characters and dots. */
  lemma DotAtomChars(s: string)
    requires IsDotAtom(s)
    ensures s != []
    ensures forall i :: 0 <= i < |s| ==> s[i] == '.' || AtomChar(s[i])
  {
    AtomPiecesCover(s);
    var atoms := Split(s, '.');
    assert atoms[0] != [];
    JoinAfterSplit(s, '.');
    if |atoms| > 1 {
      assert s == atoms[0] + ['.'] + Join(atoms[1..], '.');
    }
  }

  lemma LowerCharKeepsClasses(c: char)
    ensures Auth.PlainChar(LowerChar(c)) <==> Auth.PlainChar(c)
    ensures LowerChar(c) == '@' <==> c == '@'
    ensures LowerChar(c) == '.' <==> c == '.'
    ensures LowerChar(c) == '"' <==> c == '"'
  {
  }

  /** An address with a dotted-atom local part has the register handler's shape. */
  lemma DotAtomAddressShape(u: string, at: nat)
    requires at < |u| && u[at] == '@' && IsDotAtom(u[..at]) && IsDomain(u[at + 1..])
    ensures Auth.IsEmailShape(u)
  {
    var local, domain := u[..at], u[at + 1..];
    DotAtomChars(local);
    var inner := DomainHasInnerDot(domain);
    var dot := at + 1 + inner;
    assert u[dot] == domain[inner];
    forall i | 0 <= i < |u| && i != at ensures Auth.PlainChar(u[i]) {
      if i < at {
        assert u[i] == local[i];
      } else {
        assert u[i] == domain[i - at - 1];
      }
    }
    assert at + 1 < dot < |u| - 1;
  }

  /** Lower-casing changes none of the characters the register pattern looks at. */
  lemma LoweredShape(email: string)
    requires Auth.IsEmailShape(ToLower(email))
    ensures Auth.IsEmailShape(email)
  {
    var u := ToLower(email);
    var at :| 0 < at < |u| && u[at] == '@'
      && (forall i | 0 <= i < |u| && i != at :: Auth.PlainChar(u[i]))
      && (exists dot | at + 1 < dot < |u| - 1 :: u[dot] == '.');
    var dot :| at + 1 < dot < |u| - 1 && u[dot] == '.';
    forall i | 0 <= i < |u| ensures Auth.PlainChar(u[i]) <==> Auth.PlainChar(email[i]) {
      LowerCharKeepsClasses(email[i]);
    }
    LowerCharKeepsClasses(email[at]);
    LowerCharKeepsClasses(email[dot]);
    assert email[at] == '@' && email[dot] == '.';
  }

  /** An address this validator accepts, whose local part is not quoted (the
      text has no double quote), also has the shape the register and login
      handlers test: the two validators agree on ordinary addresses. */
  lemma DotAtomAddressHasRegisterShape(email: string)
    requires ValidateEmail(email)
    requires '"' !in email
    ensures Auth.IsEmailShape(email)
  {
    var u := ToLower(email);
    var at :| 0 <= at < |u| && u[at] == '@' && (IsDotAtom(u[..at]) || IsQuoted(u[..at])) && IsDomain(u[at + 1..]);
    assert !IsQuoted(u[..at]) by {
      if at >= 1 {
        assert u[..at][0] == u[0] == LowerChar(email[0]);
        LowerCharKeepsClasses(email[0]);
      }
    }
    DotAtomAddressShape(u, at);
    LoweredShape(email);
  }

  /** Registration accepts an address this validator refuses: a one-letter top
      level label. */
  lemma OneLetterTopLevelRefused()
    ensures var email := "a@b.c"; Auth.IsEmailShape(email) && !ValidateEmail(email)
  {
    var email := "a@b.c";
    assert email == "a" + "@" + "b" + "." + ['c'];
    assert Auth.EmailParts(email, "a", "b", "c");
    Auth.PartsHaveShape(email, "a", "b", "c");
    assert email == "a@b" + "." + ['c'];
    OneLetterTopLevelAddressRefused("a@b", 'c');
  }

  /** Whatever comes before it, a text ending in a dot and one more character
      is refused: the domain after any '@' ends in a label shorter than two. */
  lemma OneLetterTopLevelAddressRefused(prefix: string, c: char)
    ensures !ValidateEmail(prefix + "." + [c])
  {
    var u := ToLower(prefix + "." + [c]);
    assert u[|u| - 2] == '.';
    forall at | 0 <= at < |u| && u[at] == '@'
      ensures !IsDomain(u[at + 1..])
    {
      var d := u[at + 1..];
      if |d| >= 2 {
        assert d[|d| - 2] == u[|u| - 2];
      }
      ShortLastLabelIsNoDomain(d);
    }
  }

  /** A domain's last label has at least two characters: no text that is
      shorter than two, or has a dot in one of its last two places, is one. */
  lemma ShortLastLabelIsNoDomain(d: string)
    requires |d| < 2 || d[|d| - 2] == '.' || d[|d| - 1] == '.'
    ensures !IsDomain(d)
  {
    if |d| >= 1 && d[|d| - 1] == '.' {
      assert d == d[..|d| - 1] + ['.'] + [];
      SplitLastPiece(d[..|d| - 1], [], '.');
    } else if |d| >= 2 {
      assert d == d[..|d| - 2] + ['.'] + [d[|d| - 1]];
      SplitLastPiece(d[..|d| - 2], [d[|d| - 1]], '.');
    } else if |d| == 1 {
      assert d == d + [];
      SplitAfterPrefix(d, [], '.');
    }
  }

  /** The text of an address with a quoted local part holding a space. */
  const QuotedExample := "\"a b\"@ex.com"

  /** Registration refuses it: a space is not allowed anywhere. */
  lemma QuotedLocalPartHasNoRegisterShape()
    ensures !Auth.IsEmailShape(QuotedExample)
  {
    var email := QuotedExample;
    assert !Auth.PlainChar(email[2]);
    forall at | 0 < at < |email| && email[at] == '@' ensures at != 2 {
    }
  }

  /** Two labels joined by a dot make a domain when both are atoms and the
      second has at least two characters. */
  lemma TwoLabelDomain(a: string, b: string)
    requires a != [] && AllAtom(a) && |b| >= 2 && AllAtom(b)
    ensures IsDomain(a + "." + b)
  {
    assert '.' !in a && '.' !in b;
    assert a + "." + b == Join([a, b], '.');
    SplitAfterJoin([a, b], '.');
  }

  /** A local part and a domain on either side of an '@' make an address. */
  lemma AddressOfParts(local: string, domain: string)
    requires IsDotAtom(local) || IsQuoted(local)
    requires IsDomain(domain)
    ensures IsAddress(local + "@" + domain)
  {
    var s := local + "@" + domain;
    assert s[..|local|] == local && s[|local|] == '@' && s[|local| + 1..] == domain;
  }

  /** The example's domain `ex.com` is a domain. */
  lemma ExampleDomain()
    ensures IsDomain("ex.com")
  {
    assert AllAtom("ex") && AllAtom("com");
    TwoLabelDomain("ex", "com");
    assert "ex" + "." + "com" == "ex.com";
  }

  /** An address whose text has no upper-case ASCII letter passes this
      validator as soon as its two parts do. */
  lemma ValidateEmailOfParts(local: string, domain: string)
    requires IsDotAtom(local) || IsQuoted(local)
    requires IsDomain(domain)
    requires NoUpper(local + "@" + domain)
    ensures ValidateEmail(local + "@" + domain)
  {
    AddressOfParts(local, domain);
    LowerCaseFixed(local + "@" + domain);
  }

  /** The example's parts: a quoted local part, and no upper-case letter. */
  lemma ExampleParts()
    ensures IsQuoted("\"a b\"")
    ensures "\"a b\"" + "@" + "ex.com" == QuotedExample
    ensures NoUpper(QuotedExample)
  {
  }

  /** This validator accepts it. */
  lemma QuotedLocalPartAccepted()
    ensures ValidateEmail(QuotedExample)
  {
    ExampleParts();
    ExampleDomain();
    ValidateEmailOfParts("\"a b\"", "ex.com");
  }

  // ---------------------------------------------------------------- the shared checks

  /** The body of POST /suppliers and POST /umkm: name, description, address and
      contact (nama_*, deskripsi_*, alamat_*, kontak_*). */
  datatype ContactForm = ContactForm(
    name: Option<string>, description: Option<string>, address: Option<string>, contact: Option<string>)

  /** The body of PUT /suppliers/:id and PUT /umkm/:id. */
  datatype ProfileForm = ProfileForm(
    name: Option<string>, email: Option<string>, description: Option<string>, address: Option<string>,
    phoneNumber: Option<string>)

  const PhoneMessage := "PhoneNumber must start with \"62\" and be between 12 and 20 characters long"

  function CreateChecks(f: ContactForm): seq<Step> {
    [ Step(Truthy(f.name) && Truthy(f.description) && Truthy(f.address) && Truthy(f.contact),
           Reject(400, "All fields are required")),
      Step(ValidatePhoneNumber(JsString(f.contact)), Reject(400, PhoneMessage)) ]
  }

  predicate CreateAccepted(f: ContactForm) {
    && Truthy(f.name) && Truthy(f.description) && Truthy(f.address) && Truthy(f.contact)
    && ValidatePhoneNumber(f.contact.value)
  }

  /** A create gets through exactly when all four fields are given and the
      contact is a valid number; otherwise the reply is a 400 naming the first
      rule broken. */
  lemma CreateChecksPass(f: ContactForm)
    ensures FirstHalt(CreateChecks(f)) == None <==> CreateAccepted(f)
    ensures !(Truthy(f.name) && Truthy(f.description) && Truthy(f.address) && Truthy(f.contact)) ==>
      FirstHalt(CreateChecks(f)) == Some(Reject(400, "All fields are required"))
    ensures FirstHalt(CreateChecks(f)).Some? ==> FirstHalt(CreateChecks(f)).value.Reject?
    ensures FirstHalt(CreateChecks(f)).Some? ==> FirstHalt(CreateChecks(f)).value.status == 400
  {
    var steps := CreateChecks(f);
    FirstHaltIsEarliestFailure(steps);
    if FirstHalt(steps) == None {
      assert steps[0].passes && steps[1].passes;
    }
  }

  function UpdateChecks(f: ProfileForm): seq<Step> {
    [ Step(Truthy(f.name) && Truthy(f.email) && Truthy(f.description) && Truthy(f.address) && Truthy(f.phoneNumber),
           Reject(400, "All fields are required")),
      Step(ValidateEmail(JsString(f.email)), Reject(400, "Invalid email format")),
      Step(ValidatePhoneNumber(JsString(f.phoneNumber)), Reject(400, PhoneMessage)) ]
  }

  predicate UpdateAccepted(f: ProfileForm) {
    && Truthy(f.name) && Truthy(f.email) && Truthy(f.description) && Truthy(f.address) && Truthy(f.phoneNumber)
    && ValidateEmail(f.email.value) && ValidatePhoneNumber(f.phoneNumber.value)
  }

  /** A profile update gets through exactly when all five fields are given, the
      email passes validateEmail and the number validatePhoneNumber; the
      presence rule is reported before the email rule, and that before the
      number rule. */
  lemma UpdateChecksPass(f: ProfileForm)
    ensures FirstHalt(UpdateChecks(f)) == None <==> UpdateAccepted(f)
    ensures !(Truthy(f.name) && Truthy(f.email) && Truthy(f.description) && Truthy(f.address) && Truthy(f.phoneNumber)) ==>
      FirstHalt(UpdateChecks(f)) == Some(Reject(400, "All fields are required"))
    ensures (&& Truthy(f.name) && Truthy(f.email) && Truthy(f.description) && Truthy(f.address)
             && Truthy(f.phoneNumber) && !ValidateEmail(f.email.value)) ==>
      FirstHalt(UpdateChecks(f)) == Some(Reject(400, "Invalid email format"))
    ensures FirstHalt(UpdateChecks(f)).Some? ==> FirstHalt(UpdateChecks(f)).value.Reject?
    ensures FirstHalt(UpdateChecks(f)).Some? ==> FirstHalt(UpdateChecks(f)).value.status == 400
  {
    var steps := UpdateChecks(f);
    FirstHaltIsEarliestFailure(steps);
    if FirstHalt(steps) == None {
      assert steps[0].passes && steps[1].passes && steps[2].passes;
    }
    if !steps[0].passes {
      assert EarliestFailure(steps, 0);
    } else if !steps[1].passes {
      assert EarliestFailure(steps, 1);
    }
  }
}
