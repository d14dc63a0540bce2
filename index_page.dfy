/**
 * The page that hosts the whiteboard: the name gate in front of the room,
 * the initial tool, colour and size, and the active-user list rebuilt from
 * the page's presence channel.
 */
module IndexPage {
  import opened Wrappers
  import opened Shapes

  /** The colours a participant may be given at random. */
  const Palette: seq<string> := ["#06b6d4", "#f43f5e", "#22c55e", "#f59e0b", "#8b5cf6", "#ec4899", "#3b82f6", "#ef4444"]
  const InitialTool: string := "pen"
  const InitialColor: string := "#06b6d4"
  const InitialBrushSize: real := 4.0

  /** An entry of the active-user list. */
  datatype User = User(id: string, name: string, color: string)

  /**
   * The characters JavaScript's `String.prototype.trim` removes: the
   * ECMAScript WhiteSpace code points (tab, vertical tab, form feed, space,
   * no-break space, byte-order mark and the Unicode space separators
   * U+1680, U+2000 to U+200A, U+202F, U+205F, U+3000) and the
   * LineTerminator code points (line feed, carriage return, U+2028, U+2029).
   */
  const JsWhitespace: set<char> := {
    '\t', '\U{000B}', '\U{000C}', ' ', '\U{00A0}', '\U{FEFF}', '\U{1680}',
    '\U{2000}', '\U{2001}', '\U{2002}', '\U{2003}', '\U{2004}', '\U{2005}',
    '\U{2006}', '\U{2007}', '\U{2008}', '\U{2009}', '\U{200A}',
    '\U{202F}', '\U{205F}', '\U{3000}',
    '\n', '\r', '\U{2028}', '\U{2029}'
  }

  predicate IsJsWhitespace(c: char)
  {
    c in JsWhitespace
  }

  /** How many whitespace characters `s` starts with. */
  function LeadingBlanks(s: string): (n: nat)
    ensures n <= |s|
    ensures forall i :: 0 <= i < n ==> IsJsWhitespace(s[i])
    ensures n < |s| ==> !IsJsWhitespace(s[n])
  {
    if s != [] && IsJsWhitespace(s[0]) then 1 + LeadingBlanks(s[1..]) else 0
  }

  /** How many whitespace characters `s` ends with, not counting into its first `lo` characters. */
  function TrailingBlanks(s: string, lo: nat): (n: nat)
    requires lo <= |s|
    ensures n <= |s| - lo
    ensures forall i :: |s| - n <= i < |s| ==> IsJsWhitespace(s[i])
    ensures lo < |s| - n ==> !IsJsWhitespace(s[|s| - n - 1])
  {
    if lo < |s| && IsJsWhitespace(s[|s| - 1]) then 1 + TrailingBlanks(s[..|s| - 1], lo) else 0
  }

  /**
   * `s.trim()`: the part of `s` between a run of leading and a run of
   * trailing whitespace, neither starting nor ending with whitespace.
   */
  function Trim(s: string): (r: string)
    ensures var k := LeadingBlanks(s);
      k + |r| <= |s| && r == s[k..k + |r|] &&
      (forall i :: 0 <= i < k ==> IsJsWhitespace(s[i])) &&
      (forall i :: k + |r| <= i < |s| ==> IsJsWhitespace(s[i]))
    ensures r != [] ==> !IsJsWhitespace(r[0]) && !IsJsWhitespace(r[|r| - 1])
  {
    var k := LeadingBlanks(s);
    s[k..|s| - TrailingBlanks(s, k)]
  }

  /** A name trims to nothing exactly when every character of it is whitespace. */
  lemma BlankIffAllWhitespace(s: string)
    ensures Trim(s) == [] <==> forall i :: 0 <= i < |s| ==> IsJsWhitespace(s[i])
  {
    var k := LeadingBlanks(s);
    if Trim(s) != [] {
      assert s[k] == Trim(s)[0];
    }
  }

  /** The user an entry of the presence snapshot contributes: its first presence, if that has a non-empty user id. */
  function UserOf(entry: (string, seq<Presence>)): (r: Option<User>)
    ensures r.Some? <==> |entry.1| > 0 && entry.1[0].userId != ""
    ensures r.Some? ==> r.value == User(entry.1[0].userId, entry.1[0].userName, entry.1[0].userColor)
  {
    if |entry.1| > 0 && entry.1[0].userId != "" then
      var presence := entry.1[0];
      Some(User(presence.userId, presence.userName, presence.userColor))
    else None
  }

  /** The user list a sync builds: in snapshot key order, at most one user per entry. */
  function UsersOf(s: Snapshot): (r: seq<User>)
    ensures |r| <= |s|
    decreases |s|
  {
    if s == [] then []
    else
      var own := UserOf(s[|s| - 1]);
      UsersOf(s[..|s| - 1]) + (if own.Some? then [own.value] else [])
  }

  /** The sync handler's loop (`Object.keys(state).forEach(...)` pushing onto a fresh array). */
  method BuildUsers(s: Snapshot) returns (users: seq<User>)
    ensures users == UsersOf(s)
  {
    users := [];
    var i := 0;
    while i < |s|
      invariant 0 <= i <= |s|
      invariant users == UsersOf(s[..i])
    {
      var presences := s[i].1;
      if |presences| > 0 {
        var presence := presences[0];
        if presence.userId != "" {
          users := users + [User(presence.userId, presence.userName, presence.userColor)];
        }
      }
      assert s[..i + 1][..i] == s[..i];
      i := i + 1;
    }
    assert s[..|s|] == s;
  }

  /** The list of a concatenated snapshot is the concatenation of the lists: order follows key order. */
  lemma {:induction false} UsersConcat(a: Snapshot, b: Snapshot)
    ensures UsersOf(a + b) == UsersOf(a) + UsersOf(b)
    decreases |b|
  {
    if b == [] {
      assert a + b == a;
    } else {
      var ab := a + b;
      assert ab[..|ab| - 1] == a + b[..|b| - 1];
      assert ab[|ab| - 1] == b[|b| - 1];
      UsersConcat(a, b[..|b| - 1]);
    }
  }

  /**
   * A user is listed exactly when some entry's first presence carries that
   * user with a non-empty id; the local participant is not filtered out.
   */
  lemma {:induction false} UserListed(s: Snapshot, u: User)
    ensures u in UsersOf(s) <==> exists i :: 0 <= i < |s| && UserOf(s[i]) == Some(u)
    decreases |s|
  {
    if s != [] {
      var init := s[..|s| - 1];
      UserListed(init, u);
      if exists i :: 0 <= i < |s| && UserOf(s[i]) == Some(u) {
        var i :| 0 <= i < |s| && UserOf(s[i]) == Some(u);
        if i < |s| - 1 {
          assert init[i] == s[i];
        }
      }
      if exists i :: 0 <= i < |init| && UserOf(init[i]) == Some(u) {
        var i :| 0 <= i < |init| && UserOf(init[i]) == Some(u);
        assert s[i] == init[i];
      }
    }
  }

  /** The page's state. */
  class Index {
    const userId: string
    const userColor: string

    var userName: string
    var isJoined: bool
    var currentTool: string
    var currentColor: string
    var brushSize: real
    var activeUsers: seq<User>

    /**
     * The page as first rendered. The identity and the colour are drawn at
     * random outside the model; the colour is always one of the palette's.
     */
    constructor (userId: string, userColor: string)
      requires userColor in Palette
      ensures this.userId == userId && this.userColor == userColor
      ensures userName == "" && !isJoined && activeUsers == []
      ensures currentTool == InitialTool && currentColor == InitialColor && brushSize == InitialBrushSize
    {
      this.userId, this.userColor := userId, userColor;
      userName, isJoined, activeUsers := "", false, [];
      currentTool, currentColor, brushSize := InitialTool, InitialColor, InitialBrushSize;
    }

    /** The name field's change handler. */
    method SetUserName(name: string)
      modifies this`userName
      ensures userName == name
    {
      userName := name;
    }

    /** The toolbar's tool selection. */
    method SetTool(tool: string)
      modifies this`currentTool
      ensures currentTool == tool
    {
      currentTool := tool;
    }

    /** The toolbar's colour selection. */
    method SetColor(color: string)
      modifies this`currentColor
      ensures currentColor == color
    {
      currentColor := color;
    }

    /** The toolbar's brush-size selection. */
    method SetBrushSize(size: real)
      modifies this`brushSize
      ensures brushSize == size
    {
      brushSize := size;
    }

    /**
     * Join: refused, with the joined flag left as it was, when the trimmed
     * name is empty; otherwise the page joins the room.
     */
    method HandleJoin() returns (accepted: bool)
      modifies this`isJoined
      ensures accepted <==> Trim(userName) != []
      ensures isJoined == if accepted then true else old(isJoined)
    {
      if Trim(userName) == [] {
        return false;
      }
      isJoined := true;
      return true;
    }

    /**
     * A sync on the page's presence channel, which is listened to only once
     * joined: the user list is replaced by the one built from the snapshot.
     */
    method OnPresenceSync(state: Snapshot)
      modifies this`activeUsers
      ensures activeUsers == if isJoined then UsersOf(state) else old(activeUsers)
    {
      if !isJoined {
        return;
      }
      activeUsers := BuildUsers(state);
    }
  }
}
