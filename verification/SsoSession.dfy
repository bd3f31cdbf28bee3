/** Sessions that are only ever added to, and the sign-on flow that keeps its state in them. */
module SsoSession {
  import opened PythonInt

  // ---------------------------------------------------------------------------------------------
  // The store
  // ---------------------------------------------------------------------------------------------

  const PREFIX := "data_workspace_session___cookie"
  const TOKEN_KEY := "staff_sso_access_token"

  function RedisKey(cookie: string, group: string, key: string): string {
    PREFIX + "___" + cookie + "___" + group + "___" + key
  }

  predicate Plain(s: string) {
    '_' !in s
  }

  /** The keys of a session: hexadecimal ones, and the one of the token. */
  predicate SessionKey(key: string) {
    Plain(key) || key == TOKEN_KEY
  }

  /** What is after the last underscore, and what is before it. */
  lemma LastUnderscore(x: string, k: string, x': string, k': string)
    requires Plain(k) && Plain(k') && x + "_" + k == x' + "_" + k'
    ensures x == x' && k == k'
  {
    var s := x + "_" + k;
    assert s[|x|] == '_' && s[|x'|] == '_';
    assert forall i | |x| < i < |s| :: s[i] == k[i - |x| - 1] && s[i] != '_';
    assert forall i | |x'| < i < |s| :: s[i] == k'[i - |x'| - 1] && s[i] != '_';
    assert |x| == |x'|;
    assert s[..|x|] == x && s[..|x'|] == x';
    assert s[|x| + 1..] == k && s[|x'| + 1..] == k';
  }

  /** Cookie, group and key before the last underscore of a key in the store, and what follows it. */
  function Before(cookie: string, group: string, key: string): string {
    PREFIX + "___" + cookie + "___" + group + (if key == TOKEN_KEY then "___staff_sso_access" else "__")
  }

  function Rest(key: string): string {
    if key == TOKEN_KEY then "token" else key
  }

  lemma AroundLast(cookie: string, group: string, key: string)
    requires SessionKey(key)
    ensures RedisKey(cookie, group, key) == Before(cookie, group, key) + "_" + Rest(key) && Plain(Rest(key))
  {
    var x := PREFIX + "___" + cookie + "___" + group;
    if key == TOKEN_KEY {
      assert TOKEN_KEY == "staff_sso_access" + "_" + "token";
      assert x + "___" + key == x + "___staff_sso_access" + "_" + "token";
    } else {
      assert x + "___" + key == x + "__" + "_" + key;
    }
  }

  lemma SameTail(x: string, y: string, tail: string)
    requires x + tail == y + tail
    ensures x == y
  {
    assert |x| == |y|;
    assert (x + tail)[..|x|] == x && (y + tail)[..|y|] == y;
  }

  lemma SameHead(x: string, y: string, head: string)
    requires head + x == head + y
    ensures x == y
  {
    assert (head + x)[|head|..] == x && (head + y)[|head|..] == y;
  }

  predicate Suffix(t: string, s: string) {
    |t| <= |s| && s[|s| - |t|..] == t
  }

  /** After a separator, one peer group reads as the end of another: the rest of the other group would be
      taken for part of the cookie. */
  predicate EndsIn(group: string, other: string) {
    other != group && Suffix("___" + group, "___" + other)
  }

  /** None of the peer groups ends in another. */
  ghost predicate Apart(groups: set<string>) {
    forall g, h | g in groups && h in groups :: !EndsIn(g, h)
  }

  /** A key in the store says which cookie, peer group and session key it is for, even though cookies
      come from outside and may be anything. */
  ghost predicate KeysTellApart(groups: set<string>) {
    forall c, g, k, c', g', k' | g in groups && g' in groups && SessionKey(k) && SessionKey(k') ::
      RedisKey(c, g, k) == RedisKey(c', g', k') ==> c == c' && g == g' && k == k'
  }

  lemma RedisKeyInjective(groups: set<string>, c: string, g: string, k: string, c': string, g': string, k': string)
    requires Apart(groups) && g in groups && g' in groups && SessionKey(k) && SessionKey(k')
    requires RedisKey(c, g, k) == RedisKey(c', g', k')
    ensures c == c' && g == g' && k == k'
  {
    AroundLast(c, g, k);
    AroundLast(c', g', k');
    var b, b' := Before(c, g, k), Before(c', g', k');
    LastUnderscore(b, Rest(k), b', Rest(k'));
    var x, x' := PREFIX + "___" + c + "___" + g, PREFIX + "___" + c' + "___" + g';
    assert b[|b| - 1] == if k == TOKEN_KEY then 's' else '_';
    assert b'[|b'| - 1] == if k' == TOKEN_KEY then 's' else '_';
    assert k == k';
    SameTail(x, x', if k == TOKEN_KEY then "___staff_sso_access" else "__");
    SameCookieAndGroup(c, g, c', g');
  }

  lemma SuffixOfBoth(x: string, t: string, y: string, u: string)
    requires x + t == y + u && |t| <= |u|
    ensures Suffix(t, u)
  {
    var s := x + t;
    assert s[|x|..] == t && s[|y|..] == u;
    assert u[|u| - |t|..] == s[|x|..];
  }

  lemma SameCookieAndGroup(c: string, g: string, c': string, g': string)
    requires !EndsIn(g, g') && !EndsIn(g', g)
    requires PREFIX + "___" + c + "___" + g == PREFIX + "___" + c' + "___" + g'
    ensures c == c' && g == g'
  {
    var head, t, t' := PREFIX + "___", "___" + g, "___" + g';
    assert head + c + "___" + g == (head + c) + t;
    assert head + c' + "___" + g' == (head + c') + t';
    if |t| <= |t'| {
      SuffixOfBoth(head + c, t, head + c', t');
    } else {
      SuffixOfBoth(head + c', t', head + c, t);
    }
    assert g == g';
    SameTail(head + c, head + c', t);
    SameHead(c, c', head);
  }

  /** A group that ends in another has every key of its sessions in common with some cookie of the other. */
  lemma GroupsCanAlias(c: string, g: string, h: string, key: string) returns (c': string)
    requires EndsIn(g, h)
    ensures c' != c && RedisKey(c', g, key) == RedisKey(c, h, key)
  {
    var u, n := "___" + h, |h| - |g|;
    if n == 0 {
      SameHead(g, h, "___");
    }
    c' := c + u[..n];
    assert |u[..n]| == n;
    assert u == u[..n] + u[n..] && u[n..] == "___" + g;
    var head := PREFIX + "___";
    assert head + c + "___" + h == (head + c) + u;
    assert head + c' + "___" + g == (head + c) + (u[..n] + u[n..]);
    assert |c'| == |c| + n;
  }

  /** Keys tell the sessions of all cookies and of some peer groups apart, if and only if none of the
      groups ends in another. */
  lemma ApartExactly(groups: set<string>)
    ensures KeysTellApart(groups) <==> Apart(groups)
  {
    hide RedisKey;
    hide EndsIn;
    if Apart(groups) {
      forall c, g, k, c', g', k' | g in groups && g' in groups && SessionKey(k) && SessionKey(k')
                                   && RedisKey(c, g, k) == RedisKey(c', g', k')
        ensures c == c' && g == g' && k == k'
      {
        RedisKeyInjective(groups, c, g, k, c', g', k');
      }
    } else {
      var g, h :| g in groups && h in groups && EndsIn(g, h);
      var c' := GroupsCanAlias("", g, h, TOKEN_KEY);
      assert SessionKey(TOKEN_KEY);
    }
  }

  /** Only a name with underscores can end in another; the address that stands for itself when no
      configured group has it cannot. */
  lemma EndsWithUnderscores(g: string, h: string)
    requires EndsIn(g, h)
    ensures !Plain(h)
  {
    var t, u := "___" + g, "___" + h;
    var n := |u| - |t|;
    if n == 0 {
      SameHead(g, h, "___");
    } else {
      assert u[n..][2] == t[2] == '_';
      assert u[n + 2] == h[n - 1] && h[n - 1] in h;
    }
  }

  /** Underscores alone do no harm. Three of them in a row do, and so does one in front. */
  lemma GroupsInUse()
    ensures Apart({"my_group", "my_group_a", "my_group_b"})
    ensures EndsIn("c", "b___c") && EndsIn("c", "_c")
  {
    forall g, h | g in {"my_group", "my_group_a", "my_group_b"} && h in {"my_group", "my_group_a", "my_group_b"}
      ensures !EndsIn(g, h)
    {
      var t, u := "___" + g, "___" + h;
      if |t| < |u| {
        assert t[3] == 'm' && u[|u| - |t|..][3] == '_';
      } else if |t| == |u| && g != h {
        assert t[12] != u[12];
      }
    }
    assert ("___" + "b___c")[4..] == "___" + "c";
    assert ("___" + "_c")[1..] == "___" + "c";
  }

  // ---------------------------------------------------------------------------------------------
  // The state parameter
  // ---------------------------------------------------------------------------------------------

  function HexValue(c: char): (n: nat)
    requires HexDigit(c)
    ensures n < 16
  {
    if c <= '9' then c as int - '0' as int
    else if c <= 'F' then c as int - 'A' as int + 10
    else c as int - 'a' as int + 10
  }

  function HexChar(n: nat): (c: char)
    requires n < 16
    ensures HexDigit(c) && HexValue(c) == n
  {
    if n < 10 then '0' + n as char else 'A' + (n - 10) as char
  }

  /** Digits are written in upper case, and read in either. */
  lemma HexDigitsAre(n: nat)
    requires n < 16
    ensures HexChar(n) == "0123456789ABCDEF"[n]
    ensures HexDigit("0123456789abcdef"[n]) && HexValue("0123456789abcdef"[n]) == n
  {
    assert n in {0, 1, 2, 3, 4, 5, 6, 7, 8, 9, 10, 11, 12, 13, 14, 15};
  }

  predicate Ascii(s: string) {
    forall i | 0 <= i < |s| :: s[i] < '\U{0080}'
  }

  /** Characters that quoting leaves alone when nothing else is declared safe. */
  predicate Unreserved(c: char) {
    '0' <= c <= '9' || 'a' <= c <= 'z' || 'A' <= c <= 'Z' || c in {'_', '.', '-', '~'}
  }

  function QuotedChar(c: char): string
    requires c < '\U{0080}'
  {
    if Unreserved(c) then [c] else ['%', HexChar(c as int / 16), HexChar(c as int % 16)]
  }

  function Quote(s: string): string
    requires Ascii(s)
  {
    if s == "" then "" else QuotedChar(s[0]) + Quote(s[1..])
  }

  /** Nothing in a quoted text ends or divides a query, and a text without anything else is as it was. */
  lemma {:induction false} QuotedIsSafe(s: string)
    requires Ascii(s)
    ensures forall c | c in Quote(s) :: 'a' <= c <= 'z' || 'A' <= c <= 'Z' || '0' <= c <= '9' || c in "_.-~%"
    ensures Quote(s) == s
            <==> forall i | 0 <= i < |s| ::
                   'a' <= s[i] <= 'z' || 'A' <= s[i] <= 'Z' || '0' <= s[i] <= '9' || s[i] in "_.-~"
    ensures |Quote(s)| >= |s|
  {
    if s != "" {
      QuotedIsSafe(s[1..]);
      assert s == [s[0]] + s[1..];
      assert forall i | 0 <= i < |s| - 1 :: s[1..][i] == s[i + 1];
      assert Unreserved(s[0]) ==> Quote(s)[1..] == Quote(s[1..]);
    }
  }

  /** The string starts with an escape. */
  predicate Escape(s: string) {
    |s| >= 3 && s[0] == '%' && HexDigit(s[1]) && HexDigit(s[2])
  }

  function Unquote(s: string): (u: string)
    ensures |u| <= |s|
  {
    if s == "" then ""
    else if Escape(s) then [(16 * HexValue(s[1]) + HexValue(s[2])) as char] + Unquote(s[3..])
    else [s[0]] + Unquote(s[1..])
  }

  predicate HasEscape(s: string) {
    exists i | 0 <= i < |s| :: Escape(s[i..])
  }

  lemma {:induction false} UnquoteQuote(s: string)
    requires Ascii(s)
    ensures Unquote(Quote(s)) == s
  {
    if s != "" {
      var c, q := s[0], Quote(s);
      UnquoteQuote(s[1..]);
      if Unreserved(c) {
        assert q[1..] == Quote(s[1..]);
      } else {
        assert q[3..] == Quote(s[1..]);
        assert Escape(q) && 16 * HexValue(q[1]) + HexValue(q[2]) == c as int;
      }
      assert s == [c] + s[1..];
    }
  }

  /** Decoding leaves a string alone exactly if it has no escape; otherwise it makes it shorter. */
  lemma {:induction false} UnquoteKeeps(s: string)
    ensures Unquote(s) == s <==> !HasEscape(s)
    ensures HasEscape(s) ==> |Unquote(s)| < |s|
  {
    if s != "" {
      assert s[0..] == s;
      if Escape(s) {
        assert |Unquote(s[3..])| <= |s| - 3;
      } else {
        UnquoteKeeps(s[1..]);
        assert s == [s[0]] + s[1..];
        if HasEscape(s) {
          var i :| 0 <= i < |s| && Escape(s[i..]);
          assert s[1..][i - 1..] == s[i..];
        }
        if HasEscape(s[1..]) {
          var i :| 0 <= i < |s[1..]| && Escape(s[1..][i..]);
          assert s[1..][i..] == s[i + 1..];
          assert Escape(s[i + 1..]);
        }
        if Unquote(s) == s {
          assert Unquote(s)[1..] == Unquote(s[1..]);
        }
      }
    }
  }

  lemma {:induction false} UnquoteAfter(key: string, rest: string)
    requires '%' !in key
    ensures Unquote(key + rest) == key + Unquote(rest)
  {
    if key == "" {
      assert key + rest == rest;
    } else {
      assert (key + rest)[1..] == key[1..] + rest;
      assert (key + rest)[0] == key[0] && key[0] in key;
      UnquoteAfter(key[1..], rest);
      assert key == [key[0]] + key[1..];
    }
  }

  /** Python's `partition` at the first underscore. */
  function Partition(s: string): (parts: (string, string))
    ensures Plain(parts.0) && (s == parts.0 + "_" + parts.1 || (s == parts.0 && parts.1 == ""))
  {
    if s == "" then ("", "")
    else if s[0] == '_' then ("", s[1..])
    else
      var (key, url) := Partition(s[1..]);
      ([s[0]] + key, url)
  }

  lemma {:induction false} PartitionJoined(key: string, url: string)
    requires Plain(key)
    ensures Partition(key + "_" + url) == (key, url)
  {
    var s := key + "_" + url;
    if key == "" {
      assert s[1..] == url;
    } else {
      assert s[0] == key[0] && key[0] in key;
      assert s[1..] == key[1..] + "_" + url;
      assert key == [key[0]] + key[1..];
      PartitionJoined(key[1..], url);
    }
  }

  /** What a callback makes of its query: the framework decodes the query, and the handler decodes the
      value once more. */
  function Decoded(query: string): (string, string) {
    Partition(Unquote(Unquote(query)))
  }

  /** The key comes back from a state; the URL comes back if and only if it has no escape of its own. */
  lemma StateRoundTrip(key: string, url: string)
    requires Ascii(key + "_" + url) && Plain(key) && '%' !in key
    ensures Decoded(Quote(key + "_" + url)) == (key, Unquote(url))
    ensures Decoded(Quote(key + "_" + url)) == (key, url) <==> !HasEscape(url)
  {
    UnquoteQuote(key + "_" + url);
    assert key + "_" + url == (key + "_") + url;
    UnquoteAfter(key + "_", url);
    assert key + "_" + Unquote(url) == (key + "_") + Unquote(url);
    PartitionJoined(key, Unquote(url));
    UnquoteKeeps(url);
  }
}
