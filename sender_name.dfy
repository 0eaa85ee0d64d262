// src/utils.py, line 62-63: the From header value as it goes into a
// filename.

module SenderName {
  import opened Base

  /** `s.split(c)[-1]`: the text after the last `c`, or all of `s`. */
  function AfterLast(s: string, c: char): (r: string)
    ensures |r| <= |s| && r == s[|s| - |r|..]
    ensures c !in r
    ensures |r| < |s| ==> s[|s| - |r| - 1] == c
  {
    if s == [] then []
    else if s[|s| - 1] == c then []
    else
      var n := |s| - 1;
      var before := AfterLast(s[..n], c);
      assert s[n - |before|..] == s[..n][n - |before|..] + [s[n]];
      before + [s[n]]
  }

  predicate IsCloseAngle(c: char) { c == '>' }

  /** `sender_email`: the address after the last '<', without '>', stripped. */
  function SenderEmail(value: string): string {
    Strip(RemoveChars(AfterLast(value, '<'), IsCloseAngle))
  }

  /**
   * `s.replace(c, q)` with a one-character pattern: every `c`, left to
   * right, becomes `q` (occurrences of a single character never overlap).
   */
  function ReplaceChar(s: string, c: char, q: string): string {
    if s == [] then [] else (if s[0] == c then q else [s[0]]) + ReplaceChar(s[1..], c, q)
  }

  /** The sender as it goes into a filename: `sender_email` with '@' written "_at_". */
  function SenderOf(value: string): string {
    ReplaceChar(SenderEmail(value), '@', "_at_")
  }

  /** Replacing '@' by a text without '@' leaves no '@', and adds no other character. */
  lemma {:induction false} ReplaceAtChars(s: string, q: string)
    requires '@' !in q
    ensures forall x :: x in ReplaceChar(s, '@', q) ==> x != '@' && (x in s || x in q)
    decreases |s|
  {
    if s != [] {
      ReplaceAtChars(s[1..], q);
      forall x | x in s[1..] ensures x in s { }
    }
  }

  /** Stripping only removes characters. */
  lemma StripWithin(b: string)
    ensures forall x :: x in Strip(b) ==> x in b
  {
    var s := Strip(b);
    var lo := |b| - |TrimLeft(b, IsSpace)|;
    assert s == b[lo..lo + |s|];
    forall x | x in s ensures x in b {
      var i :| 0 <= i < |s| && s[i] == x;
      assert b[lo + i] == x;
    }
  }

  /** The address keeps no '<' and no '>'. */
  lemma SenderEmailClean(value: string)
    ensures '<' !in SenderEmail(value) && '>' !in SenderEmail(value)
  {
    var a := AfterLast(value, '<');
    var b := RemoveChars(a, IsCloseAngle);
    StripWithin(b);
  }

  /** A normalised sender has no '<', '>' or '@' left in it. */
  lemma SenderOfClean(value: string)
    ensures '<' !in SenderOf(value) && '>' !in SenderOf(value) && '@' !in SenderOf(value)
  {
    SenderEmailClean(value);
    ReplaceAtClean(SenderEmail(value));
  }

  lemma ReplaceAtClean(e: string)
    requires '<' !in e && '>' !in e
    ensures var r := ReplaceChar(e, '@', "_at_"); '<' !in r && '>' !in r && '@' !in r
  {
    ReplaceAtChars(e, "_at_");
  }

  /** Splitting off the display name keeps a bracketed address with no '<' in it. */
  lemma {:induction false} AfterLastAddress(name: string, addr: string)
    requires '<' !in addr
    ensures AfterLast(name + "<" + addr, '<') == addr
    decreases |addr|
  {
    var s := name + "<" + addr;
    if addr == [] {
      assert s[|s| - 1] == '<';
    } else {
      var n := |addr| - 1;
      assert s[..|s| - 1] == name + "<" + addr[..n];
      assert s[|s| - 1] == addr[n] && addr[n] != '<';
      AfterLastAddress(name, addr[..n]);
      assert addr == addr[..n] + [addr[n]];
    }
  }

  /** Text with no '@' passes the replacement untouched, whatever follows it. */
  lemma {:induction false} ReplaceAtPrefix(u: string, rest: string, q: string)
    requires '@' !in u
    ensures ReplaceChar(u + rest, '@', q) == u + ReplaceChar(rest, '@', q)
    decreases |u|
  {
    if u != [] {
      ReplaceAtPrefix(u[1..], rest, q);
      assert (u + rest)[1..] == u[1..] + rest;
      assert u == [u[0]] + u[1..];
    } else {
      assert u + rest == rest;
    }
  }

  /**
   * The usual From value `Name <user@host>` gives `user_at_host`, for a
   * user and host with no '<', '>' or '@' and no space at either end of
   * the address.
   */
  lemma SenderOfAddress(name: string, user: string, host: string)
    requires '<' !in user && '>' !in user && '@' !in user
    requires '<' !in host && '>' !in host && '@' !in host
    requires user != [] && !IsSpace(user[0]) && host != [] && !IsSpace(host[|host| - 1])
    ensures SenderOf(name + "<" + user + "@" + host + ">") == user + "_at_" + host
  {
    var addr := user + "@" + host;
    assert name + "<" + user + "@" + host + ">" == name + "<" + addr + ">";
    assert addr[0] == user[0] && addr[|addr| - 1] == host[|host| - 1];
    SenderEmailAddress(name, addr);
    ReplaceAtAddress(user, host);
  }

  /** `sender_email` of `Name <addr>` is `addr`, when `addr` has no brackets and no space at either end. */
  lemma SenderEmailAddress(name: string, addr: string)
    requires '<' !in addr && '>' !in addr
    requires addr != [] && !IsSpace(addr[0]) && !IsSpace(addr[|addr| - 1])
    ensures SenderEmail(name + "<" + addr + ">") == addr
  {
    UnbracketAddress(name, addr);
    StripNoSpace(addr);
  }

  /** The bracketed part of `Name <addr>`, without '>', is `addr`. */
  lemma UnbracketAddress(name: string, addr: string)
    requires '<' !in addr && '>' !in addr
    ensures RemoveChars(AfterLast(name + "<" + addr + ">", '<'), IsCloseAngle) == addr
  {
    assert name + "<" + addr + ">" == name + "<" + (addr + ">");
    AfterLastAddress(name, addr + ">");
    RemoveKeeps(addr, ">", IsCloseAngle);
  }

  /** A text with no space at either end is its own strip. */
  lemma StripNoSpace(s: string)
    requires s != [] && !IsSpace(s[0]) && !IsSpace(s[|s| - 1])
    ensures Strip(s) == s
  {
    assert TrimLeft(s, IsSpace) == s;
  }

  /** `user@host` with '@' written "_at_" is `user_at_host`. */
  lemma ReplaceAtAddress(user: string, host: string)
    requires '@' !in user && '@' !in host
    ensures ReplaceChar(user + "@" + host, '@', "_at_") == user + "_at_" + host
  {
    var tail := "@" + host;
    assert user + "@" + host == user + tail;
    ReplaceAtPrefix(user, tail, "_at_");
    assert tail[1..] == host;
    ReplaceAtPrefix(host, [], "_at_");
    assert host + [] == host;
    assert user + ("_at_" + host) == user + "_at_" + host;
  }

  /** Removing characters none of which is in `s` keeps `s`, and removing all of `t` drops `t`. */
  lemma {:induction false} RemoveKeeps(s: string, t: string, drop: char -> bool)
    requires forall i :: 0 <= i < |s| ==> !drop(s[i])
    requires forall i :: 0 <= i < |t| ==> drop(t[i])
    ensures RemoveChars(s + t, drop) == s
    decreases |s| + |t|
  {
    if s != [] {
      assert (s + t)[0] == s[0] && (s + t)[1..] == s[1..] + t;
      RemoveKeeps(s[1..], t, drop);
    } else if t != [] {
      assert s + t == t && t[1..] == [] + t[1..];
      RemoveKeeps([], t[1..], drop);
    } else {
      assert s + t == [];
    }
  }
}
