/**
  The LDAP security provider (LdapSecurityProvider.java): how it normalises its configuration,
  the checks authenticate makes before and around the directory, and the names it builds for
  the directory: the security principal of a user, the user container searched for groups,
  the account name of a domain-qualified user and the group name of a memberOf value.

  The directory itself (JNDI) is a pair of functions given to Authenticate.
*/
module Ldap {
  import opened Wrappers
  import opened JavaLang

  // ---------------------------------------------------------------- configuration

  /** The provider's fields once constructed; they are final in the source. */
  datatype Provider = Provider(ldapUrl: string, defaultLdapRealm: string, organizationUnit: string, fetchUserGroups: bool)

  /** The configuration properties the management-context constructor reads (null as None). */
  datatype LdapConfig = LdapConfig(url: Option<string>, fetchUserGroups: bool, realm: Option<string>, ou: Option<string>)

  const MISSING_URL := "LDAP security provider configuration missing required property BrooklynWebConfig.LDAP_URL"

  /** CharMatcher.isNot('"').retainFrom(s). */
  function WithoutQuotes(s: string): (r: string)
    ensures '"' !in r
    ensures |r| <= |s|
    ensures forall c :: c != '"' ==> multiset(r)[c] == multiset(s)[c]
    decreases |s|
  {
    if s == [] then []
    else
      assert s == [s[0]] + s[1..];
      (if s[0] == '"' then [] else [s[0]]) + WithoutQuotes(s[1..])
  }

  /** A string without quotes comes through WithoutQuotes unchanged. */
  lemma {:induction false} WithoutQuotesKeepsUnquoted(s: string)
    requires '"' !in s
    ensures WithoutQuotes(s) == s
    decreases |s|
  {
    if s != [] {
      assert s[0] != '"' && '"' !in s[1..];
      WithoutQuotesKeepsUnquoted(s[1..]);
      assert s == [s[0]] + s[1..];
    }
  }

  /** The management-context constructor. */
  function FromConfig(config: LdapConfig): (r: Result<Provider>)
    ensures r.Err? <==> config.url.None? || config.url.value == ""
    ensures r.Err? ==> r.error == IllegalArgument(MISSING_URL)
    ensures r.Ok? ==> r.value.ldapUrl == config.url.value && r.value.fetchUserGroups == config.fetchUserGroups
    ensures r.Ok? ==> r.value.defaultLdapRealm == if IsBlankOrNull(config.realm) then "" else WithoutQuotes(config.realm.value)
    ensures r.Ok? ==> r.value.organizationUnit == if IsBlankOrNull(config.ou) then "Users" else WithoutQuotes(config.ou.value)
    ensures r.Ok? ==> '"' !in r.value.defaultLdapRealm && '"' !in r.value.organizationUnit
  {
    if config.url.None? || config.url.value == "" then Err(IllegalArgument(MISSING_URL))
    else
      var realm := if !IsBlankOrNull(config.realm) then WithoutQuotes(config.realm.value) else "";
      var ou := if IsBlankOrNull(config.ou) then "Users" else WithoutQuotes(config.ou.value);
      Ok(Provider(config.url.value, realm, ou, config.fetchUserGroups))
  }

  /** The three-argument constructor keeps its arguments as given and does not fetch groups. */
  function Direct(ldapUrl: string, ldapRealm: string, organizationUnit: string): (r: Provider)
    ensures r.ldapUrl == ldapUrl && r.defaultLdapRealm == ldapRealm && r.organizationUnit == organizationUnit
    ensures !r.fetchUserGroups
  {
    Provider(ldapUrl, ldapRealm, organizationUnit, false)
  }

  // ---------------------------------------------------------------- names

  /** Each part with a prefix (the transform into `dc=` entries, or the OU=/DC= appends). */
  function Prefixed(prefix: string, parts: seq<string>): (r: seq<string>)
    ensures |r| == |parts|
    ensures forall k :: 0 <= k < |parts| ==> r[k] == prefix + parts[k]
  {
    seq(|parts|, k requires 0 <= k < |parts| => prefix + parts[k])
  }

  function LowerAll(parts: seq<string>): (r: seq<string>)
    ensures |r| == |parts|
    ensures forall k :: 0 <= k < |parts| ==> r[k] == ToLower(parts[k])
  {
    seq(|parts|, k requires 0 <= k < |parts| => ToLower(parts[k]))
  }

  /** Lower-casing a comma-joined list lower-cases each entry. */
  lemma {:induction false} ToLowerJoin(parts: seq<string>)
    ensures ToLower(Join(parts, ',')) == Join(LowerAll(parts), ',')
    decreases |parts|
  {
    if |parts| > 1 {
      ToLowerJoin(parts[1..]);
      assert LowerAll(parts)[1..] == LowerAll(parts[1..]);
      ToLowerDistributes(parts[0] + [','], Join(parts[1..], ','));
      ToLowerDistributes(parts[0], [',']);
    }
  }

  lemma ToLowerPrefixed(parts: seq<string>)
    ensures LowerAll(Prefixed("dc=", parts)) == Prefixed("dc=", LowerAll(parts))
  {
    forall k | 0 <= k < |parts| ensures LowerAll(Prefixed("dc=", parts))[k] == Prefixed("dc=", LowerAll(parts))[k] {
      ToLowerDistributes("dc=", parts[k]);
    }
  }

  /** The comma-joined `dc=` entries of the realm, lower-cased after joining, as the source does. */
  function DomainComponents(realm: string): string {
    ToLower(Join(Prefixed("dc=", Split(realm, '.')), ','))
  }

  /**
    getSecurityPrincipal: a user given as user@domain or DOMAIN\user is used as it is; any other
    name becomes a distinguished name under the organisational unit and the realm's components.
  */
  function SecurityPrincipal(p: Provider, user: string): (r: string)
    ensures '@' in user || '\\' in user ==> r == user
    ensures '@' !in user && '\\' !in user ==>
              r == "cn=" + user + ",ou=" + p.organizationUnit + "," + Join(Prefixed("dc=", LowerAll(Split(p.defaultLdapRealm, '.'))), ',')
  {
    if '@' in user || '\\' in user then user
    else
      var segments := Split(p.defaultLdapRealm, '.');
      ToLowerJoin(Prefixed("dc=", segments));
      ToLowerPrefixed(segments);
      "cn=" + user + ",ou=" + p.organizationUnit + "," + DomainComponents(p.defaultLdapRealm)
  }

  /** The entries of the user container, organisational units first, then domain components. */
  function ContainerEntries(p: Provider): seq<string> {
    Prefixed("OU=", Split(p.organizationUnit, '.')) + Prefixed("DC=", Split(p.defaultLdapRealm, '.'))
  }

  /** Every part followed by `sep`: what the StringBuilder holds before the final chop. */
  function Terminated(parts: seq<string>, sep: char): string
    decreases |parts|
  {
    if parts == [] then "" else parts[0] + [sep] + Terminated(parts[1..], sep)
  }

  lemma {:induction false} TerminatedAppend(parts: seq<string>, x: string, sep: char)
    ensures Terminated(parts + [x], sep) == Terminated(parts, sep) + x + [sep]
    decreases |parts|
  {
    if parts == [] {
      assert [x][1..] == [];
    } else {
      assert (parts + [x])[1..] == parts[1..] + [x];
      TerminatedAppend(parts[1..], x, sep);
    }
  }

  lemma {:induction false} TerminatedIsJoin(parts: seq<string>, sep: char)
    requires parts != []
    ensures Terminated(parts, sep) == Join(parts, sep) + [sep]
    decreases |parts|
  {
    if |parts| > 1 {
      TerminatedIsJoin(parts[1..], sep);
    }
  }

  /** StringUtils.chop: drops the last character, or a final CR LF pair. */
  function Chop(s: string): string {
    if |s| >= 2 && s[|s| - 2..] == "\r\n" then s[..|s| - 2]
    else if s == [] then s
    else s[..|s| - 1]
  }

  /**
    buildUserContainer: `OU=seg,` for each dot-separated segment of the unit, `DC=seg,` for each
    segment of the realm, then the trailing comma chopped off: the entries joined by commas.
  */
  method BuildUserContainer(p: Provider) returns (r: string)
    ensures r == Join(ContainerEntries(p), ',')
  {
    var units := Prefixed("OU=", Split(p.organizationUnit, '.'));
    var components := Prefixed("DC=", Split(p.defaultLdapRealm, '.'));
    var builder := AppendEntries("", "OU=", Split(p.organizationUnit, '.'));
    builder := AppendEntries(builder, "DC=", Split(p.defaultLdapRealm, '.'));
    TerminatedConcat(units, components, ',');
    assert builder == Terminated(ContainerEntries(p), ',');
    ChopTerminated(ContainerEntries(p));
    r := Chop(builder);
  }

  /** Chopping the comma-terminated entries leaves them comma-joined. */
  lemma ChopTerminated(entries: seq<string>)
    ensures Chop(Terminated(entries, ',')) == Join(entries, ',')
  {
    if entries != [] {
      var t := Terminated(entries, ',');
      TerminatedIsJoin(entries, ',');
      assert t[|t| - 1] == ',';
      assert t[..|t| - 1] == Join(entries, ',');
    }
  }

  /** One loop of buildUserContainer: `prefix`, the segment and a comma, for each segment. */
  method AppendEntries(builder: string, prefix: string, segments: seq<string>) returns (b: string)
    ensures b == builder + Terminated(Prefixed(prefix, segments), ',')
  {
    b := builder;
    var i := 0;
    while i < |segments|
      invariant 0 <= i <= |segments|
      invariant b == builder + Terminated(Prefixed(prefix, segments[..i]), ',')
    {
      ghost var done := Prefixed(prefix, segments[..i]);
      assert Prefixed(prefix, segments[..i + 1]) == done + [prefix + segments[i]];
      TerminatedAppend(done, prefix + segments[i], ',');
      AppendAssociates(builder, Terminated(done, ','), prefix + segments[i] + ",");
      b := b + (prefix + segments[i] + ",");
      i := i + 1;
    }
    assert segments[..i] == segments;
  }

  lemma {:induction false} TerminatedConcat(a: seq<string>, b: seq<string>, sep: char)
    ensures Terminated(a + b, sep) == Terminated(a, sep) + Terminated(b, sep)
    decreases |a|
  {
    if a == [] {
      assert a + b == b;
    } else {
      assert (a + b)[0] == a[0] && (a + b)[1..] == a[1..] + b;
      TerminatedConcat(a[1..], b, sep);
      calc {
        Terminated(a + b, sep);
        a[0] + [sep] + Terminated(a[1..] + b, sep);
        a[0] + [sep] + (Terminated(a[1..], sep) + Terminated(b, sep));
        (a[0] + [sep] + Terminated(a[1..], sep)) + Terminated(b, sep);
      }
    }
  }

  /** The last element of a list joined with `sep` ends the joined string, after a `sep` unless it is alone. */
  lemma {:induction false} JoinEndsWithLast(parts: seq<string>, sep: char)
    requires parts != []
    ensures var j := Join(parts, sep); var last := parts[|parts| - 1];
            |last| <= |j| && j[|j| - |last|..] == last
            && (|parts| > 1 ==> |last| < |j| && j[|j| - |last| - 1] == sep)
    decreases |parts|
  {
    if |parts| > 1 {
      JoinEndsWithLast(parts[1..], sep);
      var rest := Join(parts[1..], sep);
      assert Join(parts, sep) == parts[0] + [sep] + rest;
    }
  }

  /** `segment` starts at `cut`, just after a backslash or at the start, and only backslashes follow it. */
  ghost predicate LastSegmentAt(user: string, segment: string, cut: int) {
    0 <= cut && cut + |segment| <= |user| && (cut == 0 || user[cut - 1] == '\\')
    && user[cut..cut + |segment|] == segment
    && forall k :: cut + |segment| <= k < |user| ==> user[k] == '\\'
  }

  /** DOMAIN\user is looked up by the part after the last backslash; a name of backslashes alone leaves nothing. */
  function AccountName(user: string): (r: Result<string>)
    ensures '\\' !in user ==> r == Ok(user)
    ensures r.Err? ==> r.error == ArrayIndexOutOfBounds(-1)
    ensures r.Err? <==> user != [] && forall k :: 0 <= k < |user| ==> user[k] == '\\'
    ensures r.Ok? && '\\' in user ==>
              r.value != [] && '\\' !in r.value
              && exists cut :: LastSegmentAt(user, r.value, cut)
  {
    if '\\' in user then
      var parts := Split(user, '\\');
      if parts == [] then
        Err(ArrayIndexOutOfBounds(-1))
      else
        AccountCut(user, parts);
        Ok(parts[|parts| - 1])
    else
      assert user == [] || user[0] in user;
      Ok(user)
  }

  /** Where the last segment of a backslash split sits in the user name. */
  lemma AccountCut(user: string, parts: seq<string>)
    requires '\\' in user && parts == Split(user, '\\')
    ensures parts == [] <==> forall k :: 0 <= k < |user| ==> user[k] == '\\'
    ensures parts != [] ==>
              var last := parts[|parts| - 1];
              last != [] && '\\' !in last
              && exists cut :: LastSegmentAt(user, last, cut)
  {
    var joined := Join(parts, '\\');
    assert PaddedWith(user, joined, '\\');
    if parts == [] {
      assert joined == "";
    } else {
      var last := parts[|parts| - 1];
      JoinEndsWithLast(parts, '\\');
      var cut := |joined| - |last|;
      assert user[cut..cut + |last|] == joined[cut..];
      if cut > 0 {
        assert user[cut - 1] == joined[cut - 1];
      }
      assert LastSegmentAt(user, last, cut);
      assert joined != [] && joined[|joined| - 1] != '\\' by {
        assert joined[|joined| - 1] == last[|last| - 1];
      }
      assert !(forall k :: 0 <= k < |user| ==> user[k] == '\\') by {
        assert user[|joined| - 1] == joined[|joined| - 1];
      }
    }
  }

  /** The characters a group name may contain: [a-zA-Z0-9_-]. */
  predicate IsGroupChar(c: char) {
    'a' <= c <= 'z' || 'A' <= c <= 'Z' || '0' <= c <= '9' || c == '_' || c == '-'
  }

  /** The longest run of group-name characters at the start of `s` (the greedy `+`). */
  function GroupRun(s: string): (r: string)
    ensures r <= s
    ensures forall k :: 0 <= k < |r| ==> IsGroupChar(r[k])
    ensures |r| == |s| || !IsGroupChar(s[|r|])
    decreases |s|
  {
    if s != [] && IsGroupChar(s[0]) then [s[0]] + GroupRun(s[1..]) else []
  }

  /**
    getGroupName: the name in a leading `CN=` made of group-name characters, from a memberOf value
    such as CN=group,OU=Groups,DC=example,DC=com; anything else is not a group.
  */
  function GroupName(groupAttribute: string): (r: Result<string>)
    ensures r.Err? <==> !("CN=" <= groupAttribute && |groupAttribute| > 3 && IsGroupChar(groupAttribute[3]))
    ensures r.Err? ==> r.error == IllegalState("Not valid group found in " + groupAttribute)
    ensures r.Ok? ==> r.value != [] && "CN=" + r.value <= groupAttribute
                      && (forall k :: 0 <= k < |r.value| ==> IsGroupChar(r.value[k]))
                      && (|groupAttribute| == 3 + |r.value| || !IsGroupChar(groupAttribute[3 + |r.value|]))
  {
    if "CN=" <= groupAttribute && |groupAttribute| > 3 && IsGroupChar(groupAttribute[3]) then
      var name := GroupRun(groupAttribute[3..]);
      assert groupAttribute == "CN=" + groupAttribute[3..];
      Ok(name)
    else
      Err(IllegalState("Not valid group found in " + groupAttribute))
  }

  /** A group's own name comes back out of the memberOf value the directory writes for it. */
  lemma GroupNameReadsBack(group: string, rest: string)
    requires group != [] && forall k :: 0 <= k < |group| ==> IsGroupChar(group[k])
    ensures GroupName("CN=" + group + "," + rest) == Ok(group)
  {
    var s := "CN=" + group + "," + rest;
    assert s[3] == group[0];
    assert s[3..] == group + ("," + rest);
    assert ("," + rest)[0] == ',';
    GroupRunStopsAt(group, "," + rest);
    assert "CN=" <= s;
  }

  lemma {:induction false} GroupRunStopsAt(group: string, tail: string)
    requires forall k :: 0 <= k < |group| ==> IsGroupChar(group[k])
    requires tail != [] && !IsGroupChar(tail[0])
    ensures GroupRun(group + tail) == group
    decreases |group|
  {
    if group != [] {
      assert (group + tail)[1..] == group[1..] + tail;
      GroupRunStopsAt(group[1..], tail);
    }
  }

  // ---------------------------------------------------------------- authenticate

  /** The LDAP search filter for a user's groups. */
  function GroupFilter(accountName: string): string {
    "(&(objectclass=user)(sAMAccountName=" + accountName + "))"
  }

  /** Maps getGroupName over the memberOf values; the first invalid one is thrown. */
  function GroupNames(values: seq<string>): (r: Result<seq<string>>)
    ensures r.Ok? <==> forall k :: 0 <= k < |values| ==> GroupName(values[k]).Ok?
    ensures r.Err? ==> r.error.IllegalState?
    ensures r.Ok? ==> |r.value| == |values| && forall k :: 0 <= k < |values| ==> r.value[k] == GroupName(values[k]).value
    ensures r.Err? ==> exists k :: 0 <= k < |values| && GroupName(values[k]) == Err(r.error) &&
                                   forall j :: 0 <= j < k ==> GroupName(values[j]).Ok?
    decreases |values|
  {
    if values == [] then Ok([])
    else match GroupName(values[0])
      case Err(e) => Err(e)
      case Ok(g) =>
        assert forall k :: 0 <= k < |values| - 1 ==> values[1..][k] == values[k + 1];
        match GroupNames(values[1..])
        case Err(e) =>
          var k :| 0 <= k < |values| - 1 && GroupName(values[1..][k]) == Err(e) &&
                   forall j :: 0 <= j < k ==> GroupName(values[1..][j]).Ok?;
          assert forall j :: 0 <= j < k + 1 ==> GroupName(values[j]).Ok?;
          Err(e)
        case Ok(gs) => Ok([g] + gs)
  }

  datatype Decision = Refused | Allowed(user: string, groups: Option<seq<string>>)

  /** A user and a non-blank password that the directory accepts for the user's principal. */
  predicate Bound(p: Provider, user: Option<string>, pass: Option<string>, bind: (string, string, string) -> bool) {
    user.Some? && !IsBlankOrNull(pass) && bind(p.ldapUrl, SecurityPrincipal(p, user.value), pass.value)
  }

  /**
    authenticate(request, session, user, pass). `bind(url, principal, password)` is whether the
    directory accepts the credentials (a NamingException is false); `memberOf(container, filter)`
    is every memberOf value the search returns, or None when the search fails.
  */
  function Authenticate(p: Provider, user: Option<string>, pass: Option<string>,
                        bind: (string, string, string) -> bool,
                        memberOf: (string, string) -> Option<seq<string>>): (r: Result<Decision>)
    ensures user.None? ==> r == Ok(Refused)
    ensures IsBlankOrNull(pass) ==> r == Ok(Refused)
    ensures r.Ok? && r.value.Allowed? ==>
              user.Some? && r.value.user == user.value && !IsBlankOrNull(pass)
              && bind(p.ldapUrl, SecurityPrincipal(p, user.value), pass.value)
              && (r.value.groups.Some? <==> p.fetchUserGroups)
    ensures !p.fetchUserGroups ==> r.Ok?
    ensures r.Err? ==> p.fetchUserGroups && (r.error.ArrayIndexOutOfBounds? || r.error.IllegalState?)
    ensures user.Some? && !IsBlankOrNull(pass) && !Bound(p, user, pass, bind) ==> r == Ok(Refused)
    ensures Bound(p, user, pass, bind) && !p.fetchUserGroups ==> r == Ok(Allowed(user.value, None))
    ensures Bound(p, user, pass, bind) && p.fetchUserGroups && AccountName(user.value).Err? ==>
              r == Err(AccountName(user.value).error)
    ensures Bound(p, user, pass, bind) && p.fetchUserGroups && AccountName(user.value).Ok? ==>
              var values := memberOf(Join(ContainerEntries(p), ','), GroupFilter(AccountName(user.value).value));
              && (values.None? ==> r == Ok(Refused))
              && (values.Some? && GroupNames(values.value).Err? ==> r == Err(GroupNames(values.value).error))
              && (values.Some? && GroupNames(values.value).Ok? ==>
                    r == Ok(Allowed(user.value, Some(GroupNames(values.value).value))))
  {
    if user.None? then Ok(Refused)
    else if IsBlankOrNull(pass) then Ok(Refused)
    else if !bind(p.ldapUrl, SecurityPrincipal(p, user.value), pass.value) then Ok(Refused)
    else if !p.fetchUserGroups then Ok(Allowed(user.value, None))
    else
      var container := Join(ContainerEntries(p), ',');
      match AccountName(user.value)
      case Err(e) => Err(e)
      case Ok(account) =>
        match memberOf(container, GroupFilter(account))
        case None => Ok(Refused)
        case Some(values) =>
          match GroupNames(values)
          case Err(e) => Err(e)
          case Ok(groups) => Ok(Allowed(user.value, Some(groups)))
  }
}
