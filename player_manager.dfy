/**
 * components/player-manager.tsx: a local list of players, seeded with two,
 * to which the user adds players by name. A new player's id is the decimal
 * string of the list's new length and its balance is 300; a name that is
 * blank once trimmed is ignored.
 */
module PlayerManager {

  datatype Player = Player(id: string, name: string, balance: int)

  /** The component's state: the players list and the name input field. */
  datatype State = State(players: seq<Player>, newPlayerName: string)

  /** The balance every new player starts with. */
  const StartingBalance: int := 300

  /**
   * The characters `String.prototype.trim` removes: the ECMAScript
   * WhiteSpace and LineTerminator code points.
   */
  predicate IsSpace(c: char) {
    || c == '\t' || c == '\n' || c == '\U{0B}' || c == '\U{0C}' || c == '\r' || c == ' '
    || c == '\U{A0}' || c == '\U{1680}' || ('\U{2000}' <= c <= '\U{200A}')
    || c == '\U{2028}' || c == '\U{2029}' || c == '\U{202F}' || c == '\U{205F}'
    || c == '\U{3000}' || c == '\U{FEFF}'
  }

  /** A name with nothing but white space in it. */
  predicate Blank(s: string) {
    forall i :: 0 <= i < |s| ==> IsSpace(s[i])
  }

  /** `trimStart`: drop leading white space. */
  function TrimStart(s: string): (r: string)
    ensures |r| <= |s| && r == s[|s| - |r|..]
    ensures r == [] || !IsSpace(r[0])
    ensures Blank(s[..|s| - |r|])
  {
    if s == [] || !IsSpace(s[0]) then s
    else
      var r := TrimStart(s[1..]);
      assert s[1..][|s| - 1 - |r|..] == s[|s| - |r|..];
      var dropped, rest := s[..|s| - |r|], s[1..][..|s| - 1 - |r|];
      forall i | 0 <= i < |dropped| ensures IsSpace(dropped[i]) {
        if i > 0 {
          assert dropped[i] == rest[i - 1];
        }
      }
      r
  }

  /** `trimEnd`: drop trailing white space. */
  function TrimEnd(s: string): (r: string)
    ensures |r| <= |s| && r == s[..|r|]
    ensures r == [] || !IsSpace(r[|r| - 1])
    ensures Blank(s[|r|..])
  {
    if s == [] || !IsSpace(s[|s| - 1]) then s
    else
      var r := TrimEnd(s[..|s| - 1]);
      assert s[..|s| - 1][..|r|] == s[..|r|];
      assert forall i :: 0 <= i < |s| - 1 - |r| ==> s[|r|..][i] == s[..|s| - 1][|r|..][i];
      r
  }

  /** `trim`: white space gone from both ends. */
  function Trim(s: string): (r: string)
    ensures exists a :: 0 <= a <= |s| - |r| && r == s[a..a + |r|] && Blank(s[..a]) && Blank(s[a + |r|..])
    ensures r == [] || (!IsSpace(r[0]) && !IsSpace(r[|r| - 1]))
  {
    TrimParts(s, TrimStart(s), TrimEnd(TrimStart(s)));
    TrimEnd(TrimStart(s))
  }

  /** What `trimStart` then `trimEnd` cut: white space before position `|s| - |t|` and after the kept part. */
  lemma TrimParts(s: string, t: string, r: string)
    requires |t| <= |s| && t == s[|s| - |t|..] && Blank(s[..|s| - |t|])
    requires |r| <= |t| && r == t[..|r|] && Blank(t[|r|..])
    ensures exists a :: 0 <= a <= |s| - |r| && r == s[a..a + |r|] && Blank(s[..a]) && Blank(s[a + |r|..])
  {
    var a := |s| - |t|;
    assert r == s[a..a + |r|];
    assert s[a + |r|..] == t[|r|..];
  }

  /** The trimmed name is empty exactly when the name is blank, so `trim()` is falsy exactly then. */
  lemma TrimEmptyIffBlank(s: string)
    ensures Trim(s) == "" <==> Blank(s)
  {
    var t := TrimStart(s);
    if Trim(s) == "" {
      assert t[0..] == t;
      assert t == [];
      forall i | 0 <= i < |s| ensures IsSpace(s[i]) {
        assert s[..|s|][i] == s[i];
      }
    } else {
      assert t != [];
      assert t[0] == s[|s| - |t|];
    }
  }

  function DigitChar(d: nat): char
    requires d < 10
  {
    "0123456789"[d]
  }

  function DigitValue(c: char): nat {
    if '0' <= c <= '9' then (c as int - '0' as int) as nat else 0
  }

  /** `n.toString()` for a natural number: its decimal digits, without leading zeros. */
  function NatToString(n: nat): (s: string)
    ensures |s| >= 1
    ensures forall i :: 0 <= i < |s| ==> '0' <= s[i] <= '9'
    ensures |s| > 1 ==> s[0] != '0'
    decreases n
  {
    if n < 10 then [DigitChar(n)] else NatToString(n / 10) + [DigitChar(n % 10)]
  }

  /** Reading a string of digits back as a number. */
  function ParseDigits(s: string): nat {
    if s == [] then 0 else 10 * ParseDigits(s[..|s| - 1]) + DigitValue(s[|s| - 1])
  }

  /** Reading back the decimal string of `n` gives `n`. */
  lemma {:induction false} ParseNatToString(n: nat)
    ensures ParseDigits(NatToString(n)) == n
    decreases n
  {
    var s := NatToString(n);
    if n < 10 {
      assert s[..0] == [];
    } else {
      ParseNatToString(n / 10);
      assert s[..|s| - 1] == NatToString(n / 10);
    }
  }

  /** Different numbers have different decimal strings. */
  lemma NatToStringInjective(a: nat, b: nat)
    requires NatToString(a) == NatToString(b)
    ensures a == b
  {
    ParseNatToString(a);
    ParseNatToString(b);
  }

  /** The list as the component mounts: players "1" and "2" with 300 each, and an empty input. */
  function Initial(): (st: State)
    ensures |st.players| == 2 && st.newPlayerName == ""
    ensures forall p :: p in st.players ==> p.balance == StartingBalance
  {
    State([Player("1", "Player 1", StartingBalance), Player("2", "Player 2", StartingBalance)], "")
  }

  /**
   * `addPlayer`: a name that is blank once trimmed changes nothing;
   * otherwise one player is appended, named by the untrimmed input, with
   * the next number as id and the starting balance, and the input is
   * cleared.
   */
  function AddPlayer(st: State): (r: State)
    ensures Blank(st.newPlayerName) ==> r == st
    ensures !Blank(st.newPlayerName) ==>
              && |r.players| == |st.players| + 1
              && r.players[..|st.players|] == st.players
              && r.players[|st.players|].id == NatToString(|st.players| + 1)
              && ParseDigits(r.players[|st.players|].id) == |st.players| + 1
              && r.players[|st.players|].name == st.newPlayerName
              && r.players[|st.players|].balance == StartingBalance
              && r.newPlayerName == ""
  {
    TrimEmptyIffBlank(st.newPlayerName);
    ParseNatToString(|st.players| + 1);
    if Trim(st.newPlayerName) != "" then
      State(st.players + [Player(NatToString(|st.players| + 1), st.newPlayerName, StartingBalance)], "")
    else
      st
  }

  /** Every player's id is the decimal string of its position, counting from 1. */
  ghost predicate Numbered(players: seq<Player>) {
    forall k :: 0 <= k < |players| ==> players[k].id == NatToString(k + 1)
  }

  /** The seeded list is numbered. */
  lemma InitialNumbered()
    ensures Numbered(Initial().players)
  {
    assert NatToString(1) == "1" by { assert DigitChar(1) == '1'; }
    assert NatToString(2) == "2" by { assert DigitChar(2) == '2'; }
  }

  /** Adding a player keeps the list numbered. */
  lemma {:induction false} AddPlayerNumbered(st: State)
    requires Numbered(st.players)
    ensures Numbered(AddPlayer(st).players)
  {
    if Trim(st.newPlayerName) != "" {
      NumberedAppend(st.players, Player(NatToString(|st.players| + 1), st.newPlayerName, StartingBalance));
    }
  }

  lemma {:induction false} NumberedAppend(players: seq<Player>, p: Player)
    requires Numbered(players) && p.id == NatToString(|players| + 1)
    ensures Numbered(players + [p])
  {
    var r := players + [p];
    forall k | 0 <= k < |r| ensures r[k].id == NatToString(k + 1) {
      if k < |players| {
        assert r[k] == players[k];
      }
    }
  }

  /** In a numbered list no two players share an id. */
  lemma NumberedDistinct(players: seq<Player>, i: int, j: int)
    requires Numbered(players) && 0 <= i < j < |players|
    ensures players[i].id != players[j].id
  {
    if players[i].id == players[j].id {
      NatToStringInjective(i + 1, j + 1);
    }
  }
}
