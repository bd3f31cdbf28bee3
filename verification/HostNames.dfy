/** Host names of applications: what prints them and what parses them. */
module HostNames {
  import opened PythonInt
  import opened Wrappers

  // ---------------------------------------------------------------------------------------------
  // Partition from the right
  // ---------------------------------------------------------------------------------------------

  predicate Occurs(s: string, sep: string, i: int) {
    0 <= i <= |s| - |sep| && s[i..i + |sep|] == sep
  }

  /** The last `sep`, or -1. */
  function LastOf(s: string, sep: string): (i: int)
    requires sep != ""
    ensures i == -1 || Occurs(s, sep, i)
    ensures forall j | i < j :: !Occurs(s, sep, j)
  {
    if |s| < |sep| then -1
    else if Occurs(s, sep, |s| - |sep|) then |s| - |sep|
    else
      var front := s[..|s| - 1];
      assert forall j | 0 <= j < |s| - |sep| :: Occurs(front, sep, j) <==> Occurs(s, sep, j) by {
        forall j | 0 <= j < |s| - |sep| ensures Occurs(front, sep, j) <==> Occurs(s, sep, j) {
          assert front[j..j + |sep|] == s[j..j + |sep|];
        }
      }
      LastOf(front, sep)
  }

  /** What is before the last separator and what is after it: nothing and everything if there is none. */
  function RPartition(s: string, sep: string): (string, string)
    requires sep != ""
  {
    var i := LastOf(s, sep);
    if i < 0 then ("", s) else (s[..i], s[i + |sep|..])
  }

  /** The text comes apart around its last separator, if it has one. */
  lemma RPartitionExactly(s: string, sep: string)
    requires sep != ""
    ensures var (before, after) := RPartition(s, sep);
            if exists i :: Occurs(s, sep, i) then
              s == before + sep + after && forall j | j > |before| :: !Occurs(s, sep, j)
            else before == "" && after == s
  {
    var i := LastOf(s, sep);
    if i >= 0 {
      assert s == s[..i] + s[i..i + |sep|] + s[i + |sep|..];
    }
  }

  predicate Hyphenless(s: string) {
    '-' !in s
  }

  /** What is joined with hyphens to something without any comes apart again. */
  lemma RPartitionJoined(s: string, sep: string, last: string)
    requires sep in {"-", "--"} && Hyphenless(last)
    ensures RPartition(s + sep + last, sep) == (s, last)
  {
    var t, i := s + sep + last, |s|;
    assert t[i..i + |sep|] == sep;
    assert Occurs(t, sep, i);
    forall j | i < j <= |t| - |sep| ensures !Occurs(t, sep, j) {
      var at := j + |sep| - 1;
      assert t[j..j + |sep|][|sep| - 1] == t[at] == last[at - i - |sep|];
    }
    assert LastOf(t, sep) == i;
    assert t[..i] == s && t[i + |sep|..] == last;
  }

  // ---------------------------------------------------------------------------------------------
  // The proxy: an overridden port
  // ---------------------------------------------------------------------------------------------

  predicate PortLike(s: string) {
    IsInt(s) && 1 <= IntOf(s) <= 65535
  }

  /** The host to look for, and the port that takes the place of the application's own. */
  function ParsePort(host: string): (string, Option<int>) {
    var (possibleHost, last) := RPartition(host, "--");
    if PortLike(last) then (possibleHost, Some(IntOf(last))) else (host, None)
  }

  /** The host a running application is also reached at directly. */
  function DirectHost(host: string, port: nat): string {
    host + "--" + Decimal(port)
  }

  lemma NumeralHyphenless(n: nat)
    ensures Hyphenless(Decimal(n))
  {
    DecimalDigits(n);
  }

  /** Every host comes back from its direct form with every valid port. */
  lemma DirectHostParses(host: string, port: nat)
    ensures ParsePort(DirectHost(host, port)) == (host, Some(port)) <==> 1 <= port <= 65535
  {
    NumeralHyphenless(port);
    DecimalIsInt(port);
    RPartitionJoined(host, "--", Decimal(port));
  }

  /** A host without a double hyphen is left alone exactly if it is not a port number itself. */
  lemma BareHostPasses(host: string)
    requires forall i :: !Occurs(host, "--", i)
    ensures ParsePort(host) == (host, None) <==> !PortLike(host)
    ensures PortLike(host) ==> ParsePort(host) == ("", Some(IntOf(host)))
  {
    RPartitionExactly(host, "--");
  }

  // ---------------------------------------------------------------------------------------------
  // The application: a commit or a user
  // ---------------------------------------------------------------------------------------------

  predicate HexDigits(s: string) {
    && s != "" && HexDigit(s[|s| - 1])
    && (|| |s| == 1
        || (HexDigit(s[|s| - 2]) && HexDigits(s[..|s| - 1]))
        || (s[|s| - 2] == '_' && HexDigits(s[..|s| - 2])))
  }

  /** Python's `int` with base 16 accepts the string. */
  predicate IsHex(s: string) {
    var u := Unsigned(Strip(s));
    || HexDigits(u)
    || (|u| > 2 && u[0] == '0' && u[1] in {'x', 'X'}
        && (HexDigits(u[2..]) || (u[2] == '_' && HexDigits(u[3..]))))
  }

  predicate Is8CharHex(s: string) {
    IsHex(s) && |s| == 8
  }

  datatype Parsed = Parsed(basename: string, commit: Option<string>, user: Option<string>)

  function ParseHost(host: string): Parsed {
    var (before, last) := RPartition(host, "--");
    var ofCommit := before != "" && Is8CharHex(last);
    var rest := if ofCommit then before else host;
    var (before', last') := RPartition(rest, "-");
    var ofUser := before' != "" && Is8CharHex(last');
    Parsed(if ofUser then before' else rest, if ofCommit then Some(last) else None,
           if ofUser then Some(last') else None)
  }

  /** A basename that looks like a tool of some user. */
  predicate UserLike(basename: string) {
    var (before, last) := RPartition(basename, "-");
    before != "" && Is8CharHex(last)
  }

  predicate EndsInHyphen(s: string) {
    s != "" && s[|s| - 1] == '-'
  }

  /** A tool's host comes apart into basename and user exactly if the basename is not empty and does not
      end in a hyphen with something before it. */
  lemma UserHostParses(basename: string, user: string)
    requires Is8CharHex(user) && Hyphenless(user)
    ensures ParseHost(basename + "-" + user) == Parsed(basename, None, Some(user))
            <==> basename != "" && !(EndsInHyphen(basename) && |basename| > 1)
  {
    var host := basename + "-" + user;
    RPartitionJoined(basename, "-", user);
    if EndsInHyphen(basename) {
      var shorter := basename[..|basename| - 1];
      assert host == shorter + "--" + user;
      RPartitionJoined(shorter, "--", user);
    } else {
      NoCommit(basename, user);
    }
  }

  /** Without a hyphen at the end of the basename, the hyphen before the user is a single one, and what
      follows the last double hyphen is too long for a commit. */
  lemma NoCommit(basename: string, user: string)
    requires Is8CharHex(user) && Hyphenless(user) && !EndsInHyphen(basename)
    ensures var (before, last) := RPartition(basename + "-" + user, "--");
            !(before != "" && Is8CharHex(last))
  {
    var host := basename + "-" + user;
    var i := LastOf(host, "--");
    if i >= 0 {
      var n := |basename|;
      assert host[i..i + 2][0] == host[i] == '-' && host[i..i + 2][1] == host[i + 1] == '-';
      assert host[n] == '-';
      assert forall j | n < j < |host| :: host[j] == user[j - n - 1];
      assert forall j | 0 <= j < n :: host[j] == basename[j];
      assert i + 1 < n;
      assert |host[i + 2..]| == n - i - 2 + 9;
    }
  }

  /** A preview host comes apart into slug and commit exactly if the slug is not empty and does not itself
      look like a tool of some user. */
  lemma CommitHostParses(slug: string, commit: string)
    requires Is8CharHex(commit) && Hyphenless(commit)
    ensures ParseHost(slug + "--" + commit) == Parsed(slug, Some(commit), None)
            <==> slug != "" && !UserLike(slug)
  {
    RPartitionJoined(slug, "--", commit);
  }

  /** The proxy passes a preview host on as it is exactly if the commit is not a port number. */
  lemma CommitHostPasses(slug: string, commit: string)
    requires Hyphenless(commit)
    ensures ParsePort(slug + "--" + commit) == (slug + "--" + commit, None) <==> !PortLike(commit)
  {
    RPartitionJoined(slug, "--", commit);
  }

  // ---------------------------------------------------------------------------------------------
  // Slugs
  // ---------------------------------------------------------------------------------------------

  predicate SlugChar(c: char) {
    'a' <= c <= 'z' || '0' <= c <= '9' || c == '-'
  }

  function Dashed(s: string, space: char -> bool): string {
    if s == "" then "" else [if s[0] == '_' || space(s[0]) then '-' else s[0]] + Dashed(s[1..], space)
  }

  function Kept(s: string): (r: string)
    ensures forall c | c in r :: SlugChar(c)
  {
    if s == "" then "" else (if SlugChar(s[0]) then [s[0]] else []) + Kept(s[1..])
  }

  function StripHyphens(s: string): (r: string)
    ensures r == "" || (r[0] != '-' && r[|r| - 1] != '-')
    ensures forall c | c in r :: c in s
  {
    if s == "" then s
    else if s[0] == '-' then StripHyphens(s[1..])
    else if s[|s| - 1] == '-' then StripHyphens(s[..|s| - 1])
    else s
  }

  /** Runs of hyphens become single ones. */
  function Collapsed(s: string): (r: string)
    ensures forall c | c in r :: c in s
    ensures |r| > 0 <==> |s| > 0
    ensures s != "" ==> r[0] == s[0] && r[|r| - 1] == s[|s| - 1]
    ensures forall i | 0 <= i < |r| - 1 :: !(r[i] == '-' && r[i + 1] == '-')
  {
    if |s| < 2 then s
    else if s[0] == '-' && s[1] == '-' then Collapsed(s[1..])
    else [s[0]] + Collapsed(s[1..])
  }

  /** The slug of a project, from its lower-cased name. */
  function Slug(name: string, space: char -> bool): string {
    Collapsed(StripHyphens(Kept(Dashed(name, space))))
  }

  /** Lower-case letters, digits and single hyphens between them. */
  predicate SafeSlug(s: string) {
    && (forall c | c in s :: SlugChar(c))
    && (s != "" ==> s[0] != '-' && s[|s| - 1] != '-')
    && forall i | 0 <= i < |s| - 1 :: !(s[i] == '-' && s[i + 1] == '-')
  }

  lemma SlugIsSafe(name: string, space: char -> bool)
    ensures SafeSlug(Slug(name, space))
  {
  }

  /** What divides a name into words. */
  predicate Divides(c: char, space: char -> bool) {
    c == '-' || c == '_' || space(c)
  }

  /** The words of a name: the letters and digits between what divides them. Other characters do not count. */
  function Words(name: string, space: char -> bool): (words: seq<string>)
    ensures words != []
  {
    if name == "" then [""]
    else
      var c, rest := name[0], Words(name[1..], space);
      if Divides(c, space) then [""] + rest
      else if 'a' <= c <= 'z' || '0' <= c <= '9' then [[c] + rest[0]] + rest[1..]
      else rest
  }

  function NonEmpty(words: seq<string>): seq<string> {
    if words == [] then [] else (if words[0] == "" then [] else [words[0]]) + NonEmpty(words[1..])
  }

  function Joined(words: seq<string>): string {
    if words == [] then "" else if |words| == 1 then words[0] else words[0] + "-" + Joined(words[1..])
  }

  function Hyphens(): char -> bool {
    (c: char) => c == '-'
  }

  /** The words are still there once other characters are gone, and everything that divides is a hyphen. */
  lemma {:induction false} WordsKept(name: string, space: char -> bool)
    ensures Words(Kept(Dashed(name, space)), Hyphens()) == Words(name, space)
  {
    if name != "" {
      var dashed := Dashed(name, space);
      WordsKept(name[1..], space);
      assert dashed[1..] == Dashed(name[1..], space);
      var rest := Kept(dashed[1..]);
      if SlugChar(dashed[0]) {
        assert Kept(dashed)[1..] == rest;
      } else {
        assert Kept(dashed) == rest;
      }
    }
  }

  lemma NonEmptyFirst(word: string, words: seq<string>)
    ensures NonEmpty([word] + words) == (if word == "" then [] else [word]) + NonEmpty(words)
  {
    assert ([word] + words)[1..] == words;
  }

  /** Words that differ in empty ones behind the first only. */
  ghost predicate AsGood(words: seq<string>, words': seq<string>) {
    words != [] && words' != [] && words[0] == words'[0] && NonEmpty(words[1..]) == NonEmpty(words'[1..])
  }

  lemma {:induction false} EndsInDivision(s: string, space: char -> bool)
    requires s != "" && Divides(s[|s| - 1], space)
    ensures AsGood(Words(s, space), Words(s[..|s| - 1], space))
  {
    hide Divides;
    if |s| == 1 {
      assert s[..0] == "" && s[1..] == "";
      assert Words(s, space) == ["", ""] && Words(s[..0], space) == [""];
      assert [""][1..] == [] && ["", ""][1..] == [""];
    } else {
      var front := s[..|s| - 1];
      EndsInDivision(s[1..], space);
      assert s[1..][..|s[1..]| - 1] == front[1..];
      var words, words' := Words(s[1..], space), Words(front[1..], space);
      if Divides(s[0], space) {
        assert ([""] + words)[1..] == words && ([""] + words')[1..] == words';
        assert words == [words[0]] + words[1..] && words' == [words'[0]] + words'[1..];
        NonEmptyFirst(words[0], words[1..]);
        NonEmptyFirst(words'[0], words'[1..]);
      } else if 'a' <= s[0] <= 'z' || '0' <= s[0] <= '9' {
        assert ([[s[0]] + words[0]] + words[1..])[1..] == words[1..];
        assert ([[s[0]] + words'[0]] + words'[1..])[1..] == words'[1..];
      }
    }
  }

  lemma {:induction false} WordsStripped(s: string)
    ensures NonEmpty(Words(StripHyphens(s), Hyphens())) == NonEmpty(Words(s, Hyphens()))
    decreases |s|
  {
    if s != "" {
      if s[0] == '-' {
        WordsStripped(s[1..]);
      } else if s[|s| - 1] == '-' {
        WordsStripped(s[..|s| - 1]);
        EndsInDivision(s, Hyphens());
        var words, words' := Words(s, Hyphens()), Words(s[..|s| - 1], Hyphens());
        assert words == [words[0]] + words[1..] && words' == [words'[0]] + words'[1..];
        NonEmptyFirst(words[0], words[1..]);
        NonEmptyFirst(words'[0], words'[1..]);
      }
    }
  }

  /** The words, behind a hyphen if there was one in front. */
  function Front(s: string): string
    requires s != ""
  {
    var joined := Joined(NonEmpty(Words(s, Hyphens())));
    if s[0] == '-' then "-" + joined else joined
  }

  lemma WordsOfOne(s: string)
    requires |s| == 1 && s[0] != '-' && SlugChar(s[0])
    ensures Words(s, Hyphens()) == [s]
  {
    hide NonEmpty;
    hide Joined;
    assert s[1..] == "" && [s[0]] + "" == s;
    assert Words(s[1..], Hyphens()) == [""] && [""][1..] == [];
  }

  lemma FrontOfOne(s: string)
    requires |s| == 1 && s[0] != '-' && SlugChar(s[0])
    ensures Front(s) == s && NonEmpty(Words(s, Hyphens())) != []
  {
    WordsOfOne(s);
    hide Words;
    NonEmptyFirst(s, []);
    assert [s] + [] == [s];
  }

  lemma FrontOfHyphen(s: string)
    requires |s| > 1 && s[0] == '-' && NonEmpty(Words(s[1..], Hyphens())) != []
    ensures NonEmpty(Words(s, Hyphens())) != []
    ensures Front(s) == if s[1] == '-' then Front(s[1..]) else "-" + Front(s[1..])
  {
    var rest := Words(s[1..], Hyphens());
    assert Words(s, Hyphens()) == [""] + rest;
    hide Words;
    NonEmptyFirst("", rest);
    assert [] + NonEmpty(rest) == NonEmpty(rest);
  }

  lemma WordsOfWord(s: string)
    requires |s| > 1 && s[0] != '-' && SlugChar(s[0]) && SlugChar(s[1])
    ensures var rest := Words(s[1..], Hyphens());
            Words(s, Hyphens()) == [[s[0]] + rest[0]] + rest[1..] && (rest[0] == "" <==> s[1] == '-')
  {
    hide NonEmpty;
    hide Joined;
  }

  lemma FrontOfWord(s: string)
    requires |s| > 1 && s[0] != '-' && SlugChar(s[0]) && SlugChar(s[1])
    requires NonEmpty(Words(s[1..], Hyphens())) != []
    ensures NonEmpty(Words(s, Hyphens())) != []
    ensures Front(s) == [s[0]] + Front(s[1..])
  {
    WordsOfWord(s);
    hide Words;
    var rest := Words(s[1..], Hyphens());
    var words := NonEmpty(rest[1..]);
    assert rest == [rest[0]] + rest[1..];
    NonEmptyFirst(rest[0], rest[1..]);
    NonEmptyFirst([s[0]] + rest[0], rest[1..]);
    hide NonEmpty;
    OneWordMore([s[0]], rest[0], words);
    hide Joined;
    assert [] + words == words;
  }

  lemma {:induction false} CollapsedWords(s: string)
    requires s != "" && s[|s| - 1] != '-' && forall i | 0 <= i < |s| :: SlugChar(s[i])
    ensures NonEmpty(Words(s, Hyphens())) != [] && Collapsed(s) == Front(s)
  {
    hide Front;
    hide NonEmpty;
    hide Words;
    if |s| == 1 {
      FrontOfOne(s);
    } else {
      CollapsedWords(s[1..]);
      if s[0] == '-' {
        FrontOfHyphen(s);
      } else {
        FrontOfWord(s);
      }
    }
  }

  lemma OneWordMore(start: string, word: string, words: seq<string>)
    ensures Joined([start + word] + words)
            == start + (if word != "" then Joined([word] + words)
                        else if words == [] then ""
                        else "-" + Joined(words))
  {
    assert ([start + word] + words)[1..] == words && ([word] + words)[1..] == words;
  }

  /** The slug is the words of the name, with a hyphen between each two. */
  lemma SlugIsWords(name: string, space: char -> bool)
    ensures Slug(name, space) == Joined(NonEmpty(Words(name, space)))
  {
    var kept := Kept(Dashed(name, space));
    var stripped := StripHyphens(kept);
    WordsKept(name, space);
    WordsStripped(kept);
    if stripped != "" {
      assert forall c | c in stripped :: c in kept;
      CollapsedWords(stripped);
    }
  }

  /** What is tried as the name of a project: its slug, or its slug and the number of the attempt. */
  function Attempt(slug: string, attempt: nat): string {
    if attempt == 0 then slug else slug + "-" + Decimal(attempt)
  }

  /** No name is tried twice. */
  lemma AttemptsDiffer(slug: string, i: nat, j: nat)
    ensures Attempt(slug, i) == Attempt(slug, j) <==> i == j
  {
    NumeralHyphenless(i);
    NumeralHyphenless(j);
    DecimalIsInt(i);
    DecimalIsInt(j);
    RPartitionJoined(slug, "-", Decimal(i));
    RPartitionJoined(slug, "-", Decimal(j));
    assert i > 0 ==> |Attempt(slug, i)| > |slug|;
    assert j > 0 ==> |Attempt(slug, j)| > |slug|;
  }

  lemma NoDoubleHyphen(s: string)
    requires forall i | 0 <= i < |s| - 1 :: !(s[i] == '-' && s[i + 1] == '-')
    ensures LastOf(s, "--") < 0
  {
    forall i | 0 <= i <= |s| - 2 ensures !Occurs(s, "--", i) {
      assert s[i..i + 2][0] == s[i] && s[i..i + 2][1] == s[i + 1];
    }
  }

  lemma NumberedSlug(slug: string, attempt: nat)
    requires SafeSlug(slug) && 0 < attempt < 20
    ensures LastOf(Attempt(slug, attempt), "--") < 0
    ensures RPartition(Attempt(slug, attempt), "-").1 == Decimal(attempt) && |Decimal(attempt)| <= 2
  {
    hide LastOf;
    hide IsHex;
    NumeralHyphenless(attempt);
    RPartitionJoined(slug, "-", Decimal(attempt));
    ShortNumeral(attempt);
    var basename, n := Attempt(slug, attempt), |slug|;
    hide RPartition;
    forall i | 0 <= i < |basename| - 1 ensures !(basename[i] == '-' && basename[i + 1] == '-') {
      if i < n {
        assert basename[i] == slug[i];
        assert i + 1 < n ==> basename[i + 1] == slug[i + 1];
      } else {
        assert basename[i + 1] == Decimal(attempt)[i - n];
      }
    }
    NoDoubleHyphen(basename);
  }

  /** The production host of a visualisation is found again exactly if its name does not look like a tool
      of some user. A numbered name never does. */
  lemma SlugHostParses(name: string, space: char -> bool, attempt: nat)
    requires attempt < 20
    ensures var basename := Attempt(Slug(name, space), attempt);
            ParseHost(basename) == Parsed(basename, None, None) <==> !(attempt == 0 && UserLike(basename))
  {
    SlugIsSafe(name, space);
    hide Slug;
    hide LastOf;
    hide IsHex;
    if attempt == 0 {
      NoDoubleHyphen(Slug(name, space));
    } else {
      NumberedSlug(Slug(name, space), attempt);
    }
  }

  lemma ShortNumeral(n: nat)
    requires n < 100
    ensures |Decimal(n)| <= 2
  {
    assert n >= 10 ==> |Decimal(n / 10)| == 1;
  }

  /** A visualisation named after a day is taken for a tool. */
  lemma DatedNameIsLost()
    ensures ParseHost("report-20230101") == Parsed("report", None, Some("20230101"))
  {
    var day := "20230101";
    assert "report-20230101" == "report" + "-" + day;
    assert Strip(day) == day && Unsigned(day) == day;
    DigitsAreHex(day);
    UserHostParses("report", day);
  }

  lemma {:induction false} DigitsAreHex(s: string)
    requires s != "" && forall i | 0 <= i < |s| :: Digit(s[i])
    ensures HexDigits(s)
  {
    if |s| > 1 {
      DigitsAreHex(s[..|s| - 1]);
    }
  }

  /** A commit that is a port number with zeros before it is taken for one. */
  lemma NumericCommitIsLost(slug: string)
    ensures Is8CharHex("00008888") && ParsePort(slug + "--00008888") == (slug, Some(8888))
  {
    var commit := "00008888";
    assert Strip(commit) == commit && Unsigned(commit) == commit;
    DigitsAreHex(commit);
    ZerosBefore();
    assert slug + "--00008888" == slug + "--" + commit;
    RPartitionJoined(slug, "--", commit);
  }

  lemma ZerosBefore()
    ensures Digits("00008888") && DigitsValue("00008888") == 8888
  {
    var s := "00008888";
    assert s[..1] == "0" && s[..2] == "00" && s[..3] == "000" && s[..4] == "0000";
    assert Digits(s[..1]) && DigitsValue(s[..1]) == 0;
    assert s[..2][..1] == s[..1] && Digits(s[..2]) && DigitsValue(s[..2]) == 0;
    assert s[..3][..2] == s[..2] && Digits(s[..3]) && DigitsValue(s[..3]) == 0;
    assert s[..4][..3] == s[..3] && Digits(s[..4]) && DigitsValue(s[..4]) == 0;
    assert s[..5][..4] == s[..4] && Digits(s[..5]) && DigitsValue(s[..5]) == 8;
    assert s[..6][..5] == s[..5] && Digits(s[..6]) && DigitsValue(s[..6]) == 88;
    assert s[..7][..6] == s[..6] && Digits(s[..7]) && DigitsValue(s[..7]) == 888;
  }
}
