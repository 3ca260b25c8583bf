/** The fixture the batch user script builds: `num_users` users, one
    membership and one keypair per user, an optional group, and the
    credentials CSV. The random tokens, UUIDs and the run id are inputs;
    writing the files and running the fixture loader are left out. */
module UsersBatch {
  import opened Common

  // ---------------------------------------------------------------------
  // `{idx:03d}`

  function DigitChar(d: nat): char
    requires d < 10
  {
    ('0' as int + d) as char
  }

  predicate IsDigitChar(c: char) { '0' <= c <= '9' }

  /** The value of a digit string; ignores anything else. */
  function DecimalValue(s: string): nat
  {
    if s == [] then 0
    else
      var n := |s| - 1;
      DecimalValue(s[..n]) * 10 + (if IsDigitChar(s[n]) then (s[n] as int - '0' as int) else 0)
  }

  /** The decimal digits of `n`, without leading zeros. */
  function Digits(n: nat): (r: string)
    ensures |r| >= 1
    ensures forall i :: 0 <= i < |r| ==> IsDigitChar(r[i])
    decreases n
  {
    if n < 10 then [DigitChar(n)] else Digits(n / 10) + [DigitChar(n % 10)]
  }

  function Zeros(k: nat): (r: string)
    ensures |r| == k && forall i :: 0 <= i < k ==> r[i] == '0'
  {
    if k == 0 then [] else Zeros(k - 1) + ['0']
  }

  /** `format(n, '03d')` for a non-negative `n`. */
  function Pad3(n: nat): string
  {
    var d := Digits(n);
    (if |d| < 3 then Zeros(3 - |d|) else []) + d
  }

  lemma {:induction false} DigitsValue(n: nat)
    ensures DecimalValue(Digits(n)) == n
    decreases n
  {
    if n >= 10 {
      DigitsValue(n / 10);
      var d := Digits(n);
      assert d[..|d| - 1] == Digits(n / 10);
      assert d[|d| - 1] as int - '0' as int == n % 10;
      assert DecimalValue(d) == n / 10 * 10 + n % 10;
    }
  }

  /** Leading zeros do not change the value. */
  lemma {:induction false} ZerosValue(k: nat, s: string)
    ensures DecimalValue(Zeros(k) + s) == DecimalValue(s)
    decreases |s|, k
  {
    if s == [] {
      assert Zeros(k) + s == Zeros(k);
      if k > 0 {
        ZerosValue(k - 1, []);
        assert Zeros(k)[..k - 1] == Zeros(k - 1);
        assert Zeros(k - 1) + [] == Zeros(k - 1);
      }
    } else {
      var n := |s| - 1;
      ZerosValue(k, s[..n]);
      assert (Zeros(k) + s)[..|Zeros(k) + s| - 1] == Zeros(k) + s[..n];
    }
  }

  /** The padded index is at least three digits wide, is all digits, and
      reads back as the index. */
  lemma Pad3Facts(n: nat)
    ensures |Pad3(n)| >= 3
    ensures |Pad3(n)| == if |Digits(n)| < 3 then 3 else |Digits(n)|
    ensures forall i :: 0 <= i < |Pad3(n)| ==> IsDigitChar(Pad3(n)[i])
    ensures DecimalValue(Pad3(n)) == n
  {
    var d := Digits(n);
    DigitsValue(n);
    if |d| < 3 {
      ZerosValue(3 - |d|, d);
    } else {
      assert Pad3(n) == d;
    }
  }

  /** Small indices pad the way the script's emails show them. */
  lemma Pad3Examples()
    ensures Pad3(7) == "007" && Pad3(42) == "042" && Pad3(123) == "123"
  {
    assert Digits(42) == Digits(4) + [DigitChar(2)];
    assert Digits(123) == Digits(12) + [DigitChar(3)];
    assert Digits(12) == Digits(1) + [DigitChar(2)];
  }

  // ---------------------------------------------------------------------
  // Fixture

  const EmailDomain := "@managed.lablup.com"
  const UserDescription := "Auto-generated user account"
  const CsvHeader := "username,password,access_key,secret_key\n"
  const DefaultRateLimit := 30000
  /** The group id used without `--create-group` (a placeholder in the script). */
  const PlaceholderGroupId := "..."

  function Email(prefix: string, idx: nat): string
  {
    prefix + Pad3(idx) + EmailDomain
  }

  /** Different indices give different emails. */
  lemma EmailInjective(prefix: string, i: nat, j: nat)
    requires Email(prefix, i) == Email(prefix, j)
    ensures i == j
  {
    var e := Email(prefix, i);
    assert |Pad3(i)| == |Pad3(j)|;
    assert Pad3(i) == e[|prefix|..|prefix| + |Pad3(i)|];
    assert Pad3(j) == e[|prefix|..|prefix| + |Pad3(j)|];
    Pad3Facts(i);
    Pad3Facts(j);
  }

  /** The random values one iteration draws. */
  datatype UserTokens = UserTokens(accessKey: string, secretKey: string, uuid: string, password: string)

  datatype Options = Options(
    usernamePrefix: string, numUsers: int, resourcePolicy: string, domain: string, group: string,
    createGroup: bool, rateLimit: int)

  /** The click defaults. */
  function DefaultOptions(prefix: string, numUsers: int): Options
  {
    Options(prefix, numUsers, "default", "default", "default", false, DefaultRateLimit)
  }

  datatype GroupFixture = GroupFixture(
    id: string, name: string, isActive: bool, domainName: string,
    totalResourceSlots: map<string, string>, allowedVfolderHosts: seq<string>)

  datatype User = User(
    uuid: string, username: string, email: string, password: string, needPasswordChange: bool,
    fullName: string, description: string, isActive: bool, domainName: string, role: string)

  datatype Association = Association(userId: string, groupId: string)

  datatype Keypair = Keypair(
    userId: string, accessKey: string, secretKey: string, isActive: bool, isAdmin: bool,
    resourcePolicy: string, concurrencyUsed: int, rateLimit: int, numQueries: int, user: string)

  datatype Fixture = Fixture(
    groups: Option<seq<GroupFixture>>, users: seq<User>, associations: seq<Association>, keypairs: seq<Keypair>)

  /** `range(1, num_users + 1)` has this many elements. */
  function UserCount(n: int): nat { if n <= 0 then 0 else n }

  /** The fixture loop of `main`; `tokens(idx)` are the values drawn in
      iteration `idx` and `groupUuid` the one drawn for a new group. */
  method BuildFixture(opts: Options, tokens: nat -> UserTokens, groupUuid: string) returns (f: Fixture)
    ensures opts.createGroup <==> f.groups.Some?
    ensures opts.createGroup ==>
      f.groups == Some([GroupFixture(groupUuid, opts.group, true, opts.domain, map[], [])])
    ensures |f.users| == |f.associations| == |f.keypairs| == UserCount(opts.numUsers)
    ensures forall i :: 0 <= i < |f.users| ==>
      var t := tokens(i + 1);
      var email := Email(opts.usernamePrefix, i + 1);
      && f.users[i] == User(t.uuid, email, email, t.password, true, opts.usernamePrefix + Pad3(i + 1),
                            UserDescription, true, opts.domain, "USER")
      && f.associations[i] == Association(t.uuid, if opts.createGroup then groupUuid else PlaceholderGroupId)
      && f.keypairs[i] == Keypair(email, t.accessKey, t.secretKey, true, false, opts.resourcePolicy,
                                  0, opts.rateLimit, 0, t.uuid)
  {
    var groupId: string;
    var groups: Option<seq<GroupFixture>> := None;
    if opts.createGroup {
      groupId := groupUuid;
      groups := Some([GroupFixture(groupUuid, opts.group, true, opts.domain, map[], [])]);
    } else {
      groupId := PlaceholderGroupId;
    }
    var users: seq<User> := [];
    var associations: seq<Association> := [];
    var keypairs: seq<Keypair> := [];
    var idx := 1;
    while idx < opts.numUsers + 1
      invariant 1 <= idx <= UserCount(opts.numUsers) + 1
      invariant |users| == |associations| == |keypairs| == idx - 1
      invariant forall i :: 0 <= i < |users| ==>
        var t := tokens(i + 1);
        var email := Email(opts.usernamePrefix, i + 1);
        && users[i] == User(t.uuid, email, email, t.password, true, opts.usernamePrefix + Pad3(i + 1),
                            UserDescription, true, opts.domain, "USER")
        && associations[i] == Association(t.uuid, groupId)
        && keypairs[i] == Keypair(email, t.accessKey, t.secretKey, true, false, opts.resourcePolicy,
                                  0, opts.rateLimit, 0, t.uuid)
    {
      var t := tokens(idx);
      var email := opts.usernamePrefix + Pad3(idx) + EmailDomain;
      users := users + [User(t.uuid, email, email, t.password, true, opts.usernamePrefix + Pad3(idx),
                             UserDescription, true, opts.domain, "USER")];
      associations := associations + [Association(t.uuid, groupId)];
      keypairs := keypairs + [Keypair(email, t.accessKey, t.secretKey, true, false, opts.resourcePolicy,
                                      0, opts.rateLimit, 0, t.uuid)];
      idx := idx + 1;
    }
    f := Fixture(groups, users, associations, keypairs);
  }

  /** Every user of one run has its own email and username, and each
      keypair belongs to the user at the same position. */
  lemma FixtureEmailsDistinct(prefix: string, n: nat)
    ensures forall i, j :: 1 <= i < j <= n ==> Email(prefix, i) != Email(prefix, j)
  {
    forall i, j | 1 <= i < j <= n ensures Email(prefix, i) != Email(prefix, j) {
      if Email(prefix, i) == Email(prefix, j) {
        EmailInjective(prefix, i, j);
      }
    }
  }

  function CsvLine(u: User, kp: Keypair): string
  {
    u.username + "," + u.password + "," + kp.accessKey + "," + kp.secretKey + "\n"
  }

  /** The credentials file as lines: the header, then one line per
      (user, keypair) pair of `zip`, which stops at the shorter list. */
  method CredentialsCsv(users: seq<User>, keypairs: seq<Keypair>) returns (lines: seq<string>)
    ensures |lines| == 1 + (if |users| < |keypairs| then |users| else |keypairs|)
    ensures lines[0] == CsvHeader
    ensures forall i :: 0 <= i < |lines| - 1 ==>
      lines[i + 1] == users[i].username + "," + users[i].password + "," + keypairs[i].accessKey + "," + keypairs[i].secretKey + "\n"
  {
    lines := [CsvHeader];
    var i := 0;
    while i < |users| && i < |keypairs|
      invariant 0 <= i <= |users| && i <= |keypairs|
      invariant |lines| == i + 1 && lines[0] == CsvHeader
      invariant forall j :: 0 <= j < i ==> lines[j + 1] == CsvLine(users[j], keypairs[j])
    {
      lines := lines + [CsvLine(users[i], keypairs[i])];
      i := i + 1;
    }
  }
}
