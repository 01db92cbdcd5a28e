/**
 * What the email validator's scans and domain rules amount to, stated
 * independently of how they are computed.
 */
module EmailProps {
  import opened Wrappers
  import opened Text
  import opened Values
  import opened Failures
  import opened Config
  import opened Email

  /** `c` occurs at `i` exactly when `s[i]` is `c`. */
  lemma OccursAtChar(s: string, c: char, i: nat)
    ensures OccursAt(s, [c], i) <==> i < |s| && s[i] == c
  {
    if i < |s| {
      assert s[i..i + 1] == [s[i]];
    }
  }

  /**
   * The `@` that the quick shape check requires is the first `@` of the
   * address, so `split('@', 1)` cuts the address exactly there.
   */
  lemma SimpleShapeAt(s: string)
    requires SimpleShape(s)
    ensures IndexFrom(s, "@", 0) == Some(RunEnd(s, 0, SimpleChar))
  {
    var i := RunEnd(s, 0, SimpleChar);
    OccursAtChar(s, '@', i);
    forall j: nat | j < i
      ensures !OccursAt(s, "@", j)
    {
      OccursAtChar(s, '@', j);
    }
  }

  /** A domain whose dot-separated labels are all non-empty, said character by character. */
  predicate NoEmptyLabel(d: string)
  {
    && |d| > 0 && d[0] != '.' && d[|d| - 1] != '.'
    && forall i :: 0 <= i < |d| - 1 ==> !(d[i] == '.' && d[i + 1] == '.')
  }

  predicate AllNonEmpty(parts: seq<string>)
  {
    forall k :: 0 <= k < |parts| ==> parts[k] != ""
  }

  /**
   * `split('.')` yields no empty label exactly when the domain neither starts
   * nor ends with a dot and has no two dots in a row.
   */
  lemma {:induction false} LabelsNonEmpty(d: string)
    ensures AllNonEmpty(Split(d, ".")) <==> NoEmptyLabel(d)
    decreases |d|
  {
    match IndexFrom(d, ".", 0)
    case None =>
      forall j | 0 <= j < |d|
        ensures d[j] != '.'
      {
        OccursAtChar(d, '.', j);
      }
      assert Split(d, ".") == [d];
      assert [d][0] == d;
      assert AllNonEmpty([d]) <==> d != "";
    case Some(i) =>
      OccursAtChar(d, '.', i);
      forall j | 0 <= j < i
        ensures d[j] != '.'
      {
        OccursAtChar(d, '.', j);
      }
      var t := d[i + 1..];
      LabelsNonEmpty(t);
      var parts := Split(d, ".");
      assert parts == [d[..i]] + Split(t, ".");
      assert AllNonEmpty(parts) <==> i > 0 && AllNonEmpty(Split(t, ".")) by {
        var rest := Split(t, ".");
        assert parts[0] == d[..i];
        assert |parts| == |rest| + 1;
        if AllNonEmpty(parts) {
          assert parts[0] != "";
          forall k | 0 <= k < |rest|
            ensures rest[k] != ""
          {
            assert rest[k] == parts[k + 1];
          }
        }
        if i > 0 && AllNonEmpty(rest) {
          forall k | 0 <= k < |parts|
            ensures parts[k] != ""
          {
            if k > 0 {
              assert parts[k] == rest[k - 1];
            }
          }
        }
      }
      if NoEmptyLabel(d) {
        assert i > 0;
        assert i < |d| - 1;
        assert t[0] == d[i + 1];
        assert t[|t| - 1] == d[|d| - 1];
        forall j | 0 <= j < |t| - 1
          ensures !(t[j] == '.' && t[j + 1] == '.')
        {
          assert t[j] == d[i + 1 + j] && t[j + 1] == d[i + 1 + j + 1];
        }
        assert NoEmptyLabel(t);
      }
      if i > 0 && NoEmptyLabel(t) {
        assert d[|d| - 1] == t[|t| - 1];
        forall j | 0 <= j < |d| - 1
          ensures !(d[j] == '.' && d[j + 1] == '.')
        {
          if j > i {
            assert d[j] == t[j - i - 1] && d[j + 1] == t[j - i];
          } else if j == i {
            assert d[j + 1] == t[0];
          }
        }
        assert NoEmptyLabel(d);
      }
  }

  /**
   * Outside the bracketed-literal case, a domain passes `_validate_domain`
   * exactly when it has a dot, no empty label and a last label of at least
   * two characters.
   */
  lemma DomainRule(allowIp: bool, domain: string)
    requires !(allowIp && StartsWith(domain, "[") && EndsWith(domain, "]"))
    ensures ValidDomain(allowIp, domain) <==>
      && '.' in domain
      && NoEmptyLabel(domain)
      && |Split(domain, ".")[|Split(domain, ".")| - 1]| >= 2
  {
    LabelsNonEmpty(domain);
  }

  /** The decimal text of an octet has no dot in it. */
  lemma OctetHasNoDot(n: nat)
    ensures '.' !in NatToString(n)
  {
  }

  function DottedQuad(a: nat, b: nat, c: nat, d: nat): string
  {
    Join([NatToString(a), NatToString(b), NatToString(c), NatToString(d)], ".")
  }

  /** Four octets joined by dots split back into the four octets. */
  lemma {:induction false} DottedQuadParts(a: nat, b: nat, c: nat, d: nat)
    ensures Split(DottedQuad(a, b, c, d), ".") == [NatToString(a), NatToString(b), NatToString(c), NatToString(d)]
  {
    OctetHasNoDot(a);
    OctetHasNoDot(b);
    OctetHasNoDot(c);
    OctetHasNoDot(d);
    SplitJoin([NatToString(a), NatToString(b), NatToString(c), NatToString(d)], ".", 0);
  }

  /** An octet's decimal text parses back to the octet. */
  lemma {:induction false} OctetParses(n: nat)
    requires n <= 255
    ensures ParseInt(NatToString(n)) == Some(n)
  {
    ParseIntToString(n);
    assert IntToString(n) == NatToString(n);
  }

  /** The text of one IP part that `_validate_domain` accepts. */
  predicate OctetText(t: string)
  {
    '.' !in t && ParseInt(t).Some? && 0 <= ParseInt(t).value <= 255
  }

  lemma {:induction false} OctetOk(n: nat)
    requires n <= 255
    ensures OctetText(NatToString(n))
  {
    OctetHasNoDot(n);
    OctetParses(n);
  }

  /** Four acceptable parts joined by dots form a valid IP domain. */
  lemma {:induction false} JoinedOctets(parts: seq<string>)
    requires |parts| == 4 && forall k :: 0 <= k < 4 ==> OctetText(parts[k])
    ensures ValidIpDomain(Join(parts, "."))
  {
    SplitJoin(parts, ".", 0);
  }

  /** Four octets in range form a valid IP domain. */
  lemma {:induction false} QuadIsValidIp(a: nat, b: nat, c: nat, d: nat)
    requires a <= 255 && b <= 255 && c <= 255 && d <= 255
    ensures ValidIpDomain(DottedQuad(a, b, c, d))
  {
    OctetOk(a);
    OctetOk(b);
    OctetOk(c);
    OctetOk(d);
    var parts := [NatToString(a), NatToString(b), NatToString(c), NatToString(d)];
    forall k | 0 <= k < 4
      ensures OctetText(parts[k])
    {
      var n := if k == 0 then a else if k == 1 then b else if k == 2 then c else d;
      assert parts[k] == NatToString(n);
    }
    JoinedOctets(parts);
  }

  /** Brackets around a valid IP domain make a valid domain when IP domains are allowed. */
  lemma {:induction false} BracketedIp(inner: string)
    requires ValidIpDomain(inner)
    ensures ValidDomain(true, "[" + inner + "]")
  {
    var dom := "[" + inner + "]";
    assert dom[..1] == "[";
    assert dom[|dom| - 1..] == "]";
    assert dom[1..|dom| - 1] == inner;
  }

  /** With IP domains allowed, `[a.b.c.d]` is accepted for any four octets. */
  lemma {:induction false} IpLiteralAccepted(a: nat, b: nat, c: nat, d: nat)
    requires a <= 255 && b <= 255 && c <= 255 && d <= 255
    ensures ValidDomain(true, "[" + DottedQuad(a, b, c, d) + "]")
  {
    QuadIsValidIp(a, b, c, d);
    BracketedIp(DottedQuad(a, b, c, d));
  }

  /** A bracketed literal with only three parts is refused even when IP domains are allowed. */
  lemma {:induction false} ThreePartIpRejected(a: nat, b: nat, c: nat)
    ensures !ValidIpDomain(Join([NatToString(a), NatToString(b), NatToString(c)], "."))
  {
    var parts := [NatToString(a), NatToString(b), NatToString(c)];
    OctetHasNoDot(a);
    OctetHasNoDot(b);
    OctetHasNoDot(c);
    assert forall i :: 0 <= i < |parts| ==> '.' !in parts[i];
    SplitJoin(parts, ".", 0);
    assert |Split(Join(parts, "."), ".")| == 3;
  }

  /**
   * What an accepted address satisfies: it matches the quick shape, its domain
   * (after the first `@`) is not blacklisted and passes the domain rules, and in
   * strict mode it also matches the RFC 5322 shape.
   */
  lemma AcceptedAddress(custom: Option<string>, spec: EmailSpec, data: Value, path: Path)
    requires ValidateEmail(custom, spec, data, path).Accepted?
    ensures var e := ValidateEmail(custom, spec, data, path).email;
      && SimpleShape(e)
      && var at := RunEnd(e, 0, SimpleChar);
      && at < |e|
      && Lower(e[at + 1..]) !in spec.blacklist
      && ValidDomain(spec.allowIpDomain, e[at + 1..])
      && (spec.strict ==> Rfc5322Shape(e))
  {
    var e := Strip(data.s);
    SimpleShapeAt(e);
  }

  /**
   * A blacklisted domain is reported as such whatever the other settings say:
   * the blacklist is consulted before the strict and the domain checks.
   */
  lemma BlacklistFirst(custom: Option<string>, spec: EmailSpec, s: string, path: Path)
    requires SimpleShape(Strip(s))
    requires Lower(Strip(s)[RunEnd(Strip(s), 0, SimpleChar) + 1..]) in spec.blacklist
    ensures var r := ValidateEmail(custom, spec, Str(s), path);
      && r.Rejected? && r.cls == Plain
      && r.error.message == Msg(custom, "Email domain '" + Strip(s)[RunEnd(Strip(s), 0, SimpleChar) + 1..] + "' is not allowed")
  {
    SimpleShapeAt(Strip(s));
  }

  /** The MX setting never changes the verdict, since the lookup always passes. */
  lemma MxSettingIrrelevant(custom: Option<string>, spec: EmailSpec, data: Value, path: Path, checkMx: bool)
    ensures ValidateEmail(custom, spec.(checkMx := checkMx), data, path) == ValidateEmail(custom, spec, data, path)
  {
  }

  /** `validate_email` keeps the message of the underlying failure word for word. */
  lemma PublicKeepsMessage(custom: Option<string>, spec: EmailSpec, data: Value)
    requires ValidateEmail(custom, spec, data, []).Rejected?
    ensures ValidateEmailPublic(custom, spec, data).error.message == ValidateEmail(custom, spec, data, []).error.message
  {
    assert SegmentTexts([]) == [];
  }

  /** A lowered text has no capital letter, so it never equals a text that has one. */
  lemma LowerNeverCapital(s: string, e: string)
    requires exists i :: 0 <= i < |e| && 'A' <= e[i] <= 'Z'
    ensures Lower(s) != e
  {
    var i :| 0 <= i < |e| && 'A' <= e[i] <= 'Z';
    if i < |s| {
      assert Lower(s)[i] == LowerChar(s[i]) != e[i];
    }
  }

  /** Two blacklists that refuse the same lowered domains give every address the same verdict. */
  lemma SameRefusals(custom: Option<string>, spec: EmailSpec, other: set<string>, data: Value, path: Path)
    requires forall d :: Lower(d) in spec.blacklist <==> Lower(d) in other
    ensures ValidateEmail(custom, spec, data, path) == ValidateEmail(custom, spec.(blacklist := other), data, path)
  {
  }

  /**
   * As written, `blacklist` keeps its entries' case while the lookup lowers
   * the domain: an entry with a capital letter, such as `Spam.com`, refuses
   * nothing, so every address gets the verdict it gets without that entry.
   */
  lemma {:induction false} MixedCaseEntryNeverMatches(v: Validator, domains: set<string>, e: string, custom: Option<string>, data: Value, path: Path)
    requires v.kind.EmailK? && exists i :: 0 <= i < |e| && 'A' <= e[i] <= 'Z'
    ensures ValidateEmail(custom, EmailBlacklist(v, domains).kind.email, data, path)
         == ValidateEmail(custom, EmailBlacklist(v, domains - {e}).kind.email, data, path)
  {
    var spec := EmailBlacklist(v, domains).kind.email;
    forall d
      ensures Lower(d) in domains <==> Lower(d) in domains - {e}
    {
      LowerNeverCapital(d, e);
    }
    SameRefusals(custom, spec, domains - {e}, data, path);
    assert spec.(blacklist := domains - {e}) == EmailBlacklist(v, domains - {e}).kind.email;
  }

  /** With the entries lowered, `Spam.com` refuses every spelling of the domain. */
  lemma {:induction false} LoweredEntryMatches(v: Validator, dom: string)
    requires v.kind.EmailK? && Lower(dom) == "spam.com"
    ensures Lower(dom) in EmailBlacklistLowered(v, {"Spam.com"}).kind.email.blacklist
  {
    assert Lower("Spam.com") == "spam.com";
  }
}
