/**
 * sift's self-contained `EmailValidator`: strip, a quick shape check, split at
 * the first `@`, blacklist, an optional strict RFC 5322-style shape check
 * (section 3.4.1 addr-spec, as the code approximates it), domain-label rules
 * with an optional bracketed IPv4 literal (compare section 4.1.3 of RFC 5321),
 * and a stubbed MX lookup. Both regular expressions of the source are written
 * out here as explicit scans.
 */
module Email {
  import opened Wrappers
  import opened Text
  import opened Values
  import opened Failures
  import opened Config

  /** Which exception class carries a rejection. */
  datatype ErrorClass =
    | NotValid          // EmailNotValidError: the input is not a string
    | Plain             // ValidationError: every other check
    | EmailValidation   // EmailValidationError: raised by `validate_email`

  datatype EmailOutcome = Accepted(email: string) | Rejected(cls: ErrorClass, error: ValidationError)

  /** The settings `EmailValidator()` starts with. */
  const DefaultSpec := EmailSpec(true, false, false, false, {})

  /** Index of the first character at or after `i` that is not in the class `p`, or `|s|`. */
  function RunEnd(s: string, i: nat, p: char -> bool): (r: nat)
    requires i <= |s|
    ensures i <= r <= |s|
    ensures forall j :: i <= j < r ==> p(s[j])
    ensures r < |s| ==> !p(s[r])
    decreases |s| - i
  {
    if i < |s| && p(s[i]) then RunEnd(s, i + 1, p) else i
  }

  /** `[^@\s]` */
  predicate SimpleChar(c: char)
  {
    c != '@' && !IsSpace(c)
  }

  predicate AsciiAlnum(c: char)
  {
    ('a' <= c <= 'z') || ('A' <= c <= 'Z') || ('0' <= c <= '9')
  }

  /** `[a-zA-Z0-9_.+-]` */
  predicate LocalChar(c: char)
  {
    AsciiAlnum(c) || c == '_' || c == '.' || c == '+' || c == '-'
  }

  /** `[a-zA-Z0-9-]` */
  predicate LabelChar(c: char)
  {
    AsciiAlnum(c) || c == '-'
  }

  /** `[a-zA-Z0-9-.]` */
  predicate TailChar(c: char)
  {
    AsciiAlnum(c) || c == '-' || c == '.'
  }

  /** A dot strictly inside `s[lo..hi]` with at least one character on each side. */
  predicate InnerDot(s: string, lo: nat, hi: nat)
    requires lo <= hi <= |s|
  {
    exists p :: lo < p < hi - 1 && s[p] == '.'
  }

  /**
   * `SIMPLE_EMAIL_REGEX.match(s)` for `[^@\s]+@[^@\s]+\.[^@\s]+`: a prefix of `s`
   * is a run of non-`@`, non-space characters, an `@`, then such a run with a
   * dot that has characters on both sides.
   */
  predicate SimpleShape(s: string)
  {
    var i := RunEnd(s, 0, SimpleChar);
    && 0 < i < |s| && s[i] == '@'
    && InnerDot(s, i + 1, RunEnd(s, i + 1, SimpleChar))
  }

  /**
   * `EMAIL_REGEX.fullmatch(s)` for `^[a-zA-Z0-9_.+-]+@[a-zA-Z0-9-]+\.[a-zA-Z0-9-.]+$`:
   * a local part, `@`, a first label without dots, a dot, and a non-empty tail.
   */
  predicate Rfc5322Shape(s: string)
  {
    var i := RunEnd(s, 0, LocalChar);
    && 0 < i < |s| && s[i] == '@'
    && var j := RunEnd(s, i + 1, LabelChar);
    && i + 1 < j < |s| - 1 && s[j] == '.'
    && RunEnd(s, j + 1, TailChar) == |s|
  }

  /** `_validate_ip_domain`: exactly four dot-separated parts, each `int()`-parsable into 0..255. */
  predicate ValidIpDomain(ip: string)
  {
    var parts := Split(ip, ".");
    && |parts| == 4
    && forall k :: 0 <= k < 4 ==> ParseInt(parts[k]).Some? && 0 <= ParseInt(parts[k]).value <= 255
  }

  /**
   * `_validate_domain`: a bracketed IPv4 literal when allowed; otherwise a dot,
   * no empty label, and a last label of at least two characters.
   */
  predicate ValidDomain(allowIp: bool, domain: string)
  {
    if allowIp && StartsWith(domain, "[") && EndsWith(domain, "]") then
      ValidIpDomain(if |domain| >= 2 then domain[1..|domain| - 1] else "")
    else if '.' !in domain then false
    else
      var parts := Split(domain, ".");
      && (forall k :: 0 <= k < |parts| ==> parts[k] != "")
      && |parts[|parts| - 1]| >= 2
  }

  /** `_check_mx_records`: no lookup is made and every domain passes. */
  predicate CheckMxRecords(domain: string)
  {
    true
  }

  /** `EmailValidator._validate`, checks in source order; the first failing one is reported. */
  function ValidateEmail(custom: Option<string>, spec: EmailSpec, data: Value, path: Path): (r: EmailOutcome)
    ensures !data.Str? ==> r.Rejected? && r.cls == NotValid
    ensures r.Accepted? ==> data.Str? && r.email == Strip(data.s)
    ensures r.Rejected? ==> r.error.path == path && (r.cls == NotValid <==> !data.Str?) && r.cls != EmailValidation
  {
    if !data.Str? then
      Rejected(NotValid, ValidationError(Msg(custom, "Expected string, got " + TypeName(data)), path))
    else
      var email := Strip(data.s);
      if !SimpleShape(email) then
        Rejected(Plain, ValidationError(Msg(custom, "Invalid email format"), path))
      else match IndexFrom(email, "@", 0)
        case None =>
          Rejected(Plain, ValidationError(Msg(custom, "Invalid email format"), path))
        case Some(at) =>
          var domain := email[at + 1..];
          if Lower(domain) in spec.blacklist then
            Rejected(Plain, ValidationError(Msg(custom, "Email domain '" + domain + "' is not allowed"), path))
          else if spec.strict && !Rfc5322Shape(email) then
            Rejected(Plain, ValidationError(Msg(custom, "Email does not comply with RFC 5322 standards"), path))
          else if !ValidDomain(spec.allowIpDomain, domain) then
            Rejected(Plain, ValidationError(Msg(custom, "Invalid email domain"), path))
          else if spec.checkMx && !CheckMxRecords(domain) then
            Rejected(Plain, ValidationError(Msg(custom, "Domain does not have valid MX records"), path))
          else
            Accepted(email)
  }

  /** `validate_email`: run `_validate` at the root and re-raise any failure as `EmailValidationError(str(e))`. */
  function ValidateEmailPublic(custom: Option<string>, spec: EmailSpec, email: Value): (r: EmailOutcome)
    ensures r.Rejected? ==> r.cls == EmailValidation && r.error.path == []
    ensures r.Accepted? <==> ValidateEmail(custom, spec, email, []).Accepted?
  {
    match ValidateEmail(custom, spec, email, [])
    case Accepted(e) => Accepted(e)
    case Rejected(_, e) => Rejected(EmailValidation, ValidationError(Render(e), []))
  }

  /* -------------------------------------------------------------- Builders */

  /** `EmailValidator()` */
  function EmailOf(): Validator
  {
    Fresh(EmailK(DefaultSpec))
  }

  /** `strict(b)` */
  function EmailStrict(v: Validator, b: bool): (r: Validator)
    requires v.kind.EmailK?
    ensures r.kind.EmailK? && r.kind.email.strict == b
    ensures r.kind.email.(strict := v.kind.email.strict) == v.kind.email && r.(kind := v.kind) == v
  {
    v.(kind := EmailK(v.kind.email.(strict := b)))
  }

  /** `check_mx(b)` */
  function EmailCheckMx(v: Validator, b: bool): (r: Validator)
    requires v.kind.EmailK?
    ensures r.kind.EmailK? && r.kind.email.checkMx == b
    ensures r.kind.email.(checkMx := v.kind.email.checkMx) == v.kind.email && r.(kind := v.kind) == v
  {
    v.(kind := EmailK(v.kind.email.(checkMx := b)))
  }

  /** `allow_ip_domain(b)` */
  function EmailAllowIp(v: Validator, b: bool): (r: Validator)
    requires v.kind.EmailK?
    ensures r.kind.EmailK? && r.kind.email.allowIpDomain == b
    ensures r.kind.email.(allowIpDomain := v.kind.email.allowIpDomain) == v.kind.email && r.(kind := v.kind) == v
  {
    v.(kind := EmailK(v.kind.email.(allowIpDomain := b)))
  }

  /** `allow_unicode(b)`: stored, and consulted by no check. */
  function EmailAllowUnicode(v: Validator, b: bool): (r: Validator)
    requires v.kind.EmailK?
    ensures r.kind.EmailK? && r.kind.email.allowUnicode == b
    ensures r.kind.email.(allowUnicode := v.kind.email.allowUnicode) == v.kind.email && r.(kind := v.kind) == v
  {
    v.(kind := EmailK(v.kind.email.(allowUnicode := b)))
  }

  /** `blacklist(domains)`: the set is stored as given. */
  function EmailBlacklist(v: Validator, domains: set<string>): (r: Validator)
    requires v.kind.EmailK?
    ensures r.kind.EmailK? && r.kind.email.blacklist == domains
    ensures r.kind.email.(blacklist := v.kind.email.blacklist) == v.kind.email && r.(kind := v.kind) == v
  {
    v.(kind := EmailK(v.kind.email.(blacklist := domains)))
  }

  /**
   * `blacklist(domains)` as the lookup needs it: the entries are stored
   * lower-cased, so that a domain is refused exactly when it equals some
   * entry up to ASCII case.
   */
  function EmailBlacklistLowered(v: Validator, domains: set<string>): (r: Validator)
    requires v.kind.EmailK?
    ensures r.kind.EmailK?
    ensures forall dom :: Lower(dom) in r.kind.email.blacklist <==> exists e :: e in domains && Lower(e) == Lower(dom)
    ensures r.kind.email.(blacklist := v.kind.email.blacklist) == v.kind.email && r.(kind := v.kind) == v
  {
    v.(kind := EmailK(v.kind.email.(blacklist := set e | e in domains :: Lower(e))))
  }
}
