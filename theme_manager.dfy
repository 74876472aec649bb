/**
 * The ThemeManager of ui/theme_manager.py: two themes of display colours,
 * faction names, messages and sound files, the current one of which is
 * toggled in place. A message's str.format field is kept apart from the
 * text around it; Format models str.format on named fields and shows that
 * filling the field is what str.format does with the message as written.
 */
module ThemeManaging {
  import opened Wrappers

  predicate KnownTheme(theme: string)
  {
    theme == "fantasy" || theme == "scifi"
  }

  /**
   * A setting of the table: plain text, or a message with one str.format
   * field between two texts ("The {player} have ..." is Field("The ",
   * "player", " have ...")).
   */
  datatype Setting = Text(text: string) | Field(before: string, name: string, after: string)

  /** The setting as the table writes it. */
  function Render(s: Setting): string
  {
    match s
    case Text(text) => text
    case Field(before, name, after) => before + "{" + name + "}" + after
  }

  function Player1Name(theme: string): string
  {
    if theme == "fantasy" then "Crystal Lords" else "Quantum Collective"
  }

  function Player2Name(theme: string): string
  {
    if theme == "fantasy" then "Shadow Keepers" else "Void Syndicate"
  }

  /** "crystal" or "quantum": the alignment the win message names. */
  function Alignment(theme: string): string
  {
    if theme == "fantasy" then "crystal" else "quantum"
  }

  function WinMessage(theme: string): Setting
  {
    Field("The ", "player", " have achieved " + Alignment(theme) + " alignment!")
  }

  function DrawMessage(theme: string): string
  {
    if theme == "fantasy" then "The Crystal Grid is full - a balance of powers!"
    else "The Probability Matrix is saturated - dimensional stalemate!"
  }

  /** The themes table: every setting of a theme by name. */
  function ThemeDict(theme: string): (d: map<string, Setting>)
    requires KnownTheme(theme)
    ensures "player1_name" in d && d["player1_name"] == Text(Player1Name(theme))
    ensures "player2_name" in d && d["player2_name"] == Text(Player2Name(theme))
    ensures "win_message" in d && d["win_message"] == WinMessage(theme)
    ensures "draw_message" in d && d["draw_message"] == Text(DrawMessage(theme))
  {
    if theme == "fantasy" then
      map["board_color" := Text("#8B4513"), "cell_color" := Text("#F5DEB3"), "p1_color" := Text("#4169E1"),
          "p2_color" := Text("#DC143C"), "background" := Text("#F5F5DC"),
          "player1_name" := Text(Player1Name(theme)), "player2_name" := Text(Player2Name(theme)),
          "piece_name" := Text("crystal"), "board_name" := Text("Crystal Grid"),
          "title" := Text("Crystal Conquest: Connect Four"),
          "win_message" := WinMessage(theme), "draw_message" := Text(DrawMessage(theme)),
          "drop_sound" := Text("assets/sounds/crystal_drop.wav"), "win_sound" := Text("assets/sounds/victory_chime.wav")]
    else
      map["board_color" := Text("#2F4F4F"), "cell_color" := Text("#000000"), "p1_color" := Text("#00FF00"),
          "p2_color" := Text("#FF00FF"), "background" := Text("#0A0A2A"),
          "player1_name" := Text(Player1Name(theme)), "player2_name" := Text(Player2Name(theme)),
          "piece_name" := Text("quantum token"), "board_name" := Text("Probability Matrix"),
          "title" := Text("Quantum Nexus: Connect Four"),
          "win_message" := WinMessage(theme), "draw_message" := Text(DrawMessage(theme)),
          "drop_sound" := Text("assets/sounds/quantum_deploy.wav"), "win_sound" := Text("assets/sounds/victory_synth.wav")]
  }

  /** switch_theme's choice: scifi after fantasy, fantasy after anything else. */
  function Toggle(theme: string): (t: string)
    ensures KnownTheme(t)
    ensures KnownTheme(theme) ==> t != theme
  {
    if theme == "fantasy" then "scifi" else "fantasy"
  }

  /** Switching twice comes back to the theme switched from. */
  lemma ToggleTwice(theme: string)
    requires KnownTheme(theme)
    ensures Toggle(Toggle(theme)) == theme
  {
  }

  // ---------------------------------------------------------------------
  // str.format with keyword arguments

  /** The index of the first '}' in s, or |s| when there is none. */
  function CloseAt(s: string): (j: nat)
    ensures j <= |s|
    ensures forall k :: 0 <= k < j ==> s[k] != '}'
    ensures j < |s| ==> s[j] == '}'
  {
    if s == [] || s[0] == '}' then 0 else 1 + CloseAt(s[1..])
  }

  predicate BraceFree(s: string)
  {
    '{' !in s && '}' !in s
  }

  /**
   * template.format(**kwargs) for templates of named fields: each "{name}"
   * becomes kwargs[name]; a name that is missing (KeyError) or a lone or
   * unclosed brace (ValueError) gives None.
   */
  function Format(s: string, kwargs: map<string, string>): (r: Option<string>)
    decreases |s|
  {
    if s == [] then Some("")
    else if s[0] == '{' then
      var j := CloseAt(s[1..]);
      if j == |s| - 1 then None
      else
        var name := s[1..j + 1];
        if name !in kwargs then None
        else
          match Format(s[j + 2..], kwargs)
          case None => None
          case Some(rest) => Some(kwargs[name] + rest)
    else if s[0] == '}' then None
    else
      match Format(s[1..], kwargs)
      case None => None
      case Some(rest) => Some([s[0]] + rest)
  }

  /** Text without braces in front of a template passes through unchanged. */
  lemma {:induction false} FormatAfterPlain(a: string, t: string, kwargs: map<string, string>)
    requires BraceFree(a)
    ensures Format(a + t, kwargs) == if Format(t, kwargs).Some? then Some(a + Format(t, kwargs).value) else None
    decreases |a|
  {
    if a != [] {
      assert (a + t)[1..] == a[1..] + t;
      assert a[0] in a;
      FormatAfterPlain(a[1..], t, kwargs);
      if Format(t, kwargs).Some? {
        assert [a[0]] + (a[1..] + Format(t, kwargs).value) == a + Format(t, kwargs).value;
      }
    } else {
      assert a + t == t;
      if Format(t, kwargs).Some? {
        assert a + Format(t, kwargs).value == Format(t, kwargs).value;
      }
    }
  }

  /** A template without braces formats to itself, whatever the arguments. */
  lemma FormatPlain(s: string, kwargs: map<string, string>)
    requires BraceFree(s)
    ensures Format(s, kwargs) == Some(s)
  {
    FormatAfterPlain(s, "", kwargs);
    assert s + "" == s;
  }

  /**
   * One named field between brace-free text: it becomes the argument of
   * that name, and without that argument the format fails.
   */
  lemma FormatOneField(a: string, name: string, b: string, kwargs: map<string, string>)
    requires BraceFree(a) && BraceFree(b) && '}' !in name
    ensures name in kwargs ==> Format(a + "{" + name + "}" + b, kwargs) == Some(a + kwargs[name] + b)
    ensures name !in kwargs ==> Format(a + "{" + name + "}" + b, kwargs) == None
  {
    var t := "{" + name + "}" + b;
    assert a + "{" + name + "}" + b == a + t;
    var j := CloseAt(t[1..]);
    assert t[1..] == name + "}" + b;
    assert t[1..][|name|] == '}';
    assert forall k :: 0 <= k < |name| ==> t[1..][k] == name[k];
    assert j == |name|;
    assert t[1..j + 1] == name;
    assert t[j + 2..] == b;
    FormatPlain(b, kwargs);
    FormatAfterPlain(a, t, kwargs);
    if name in kwargs {
      assert a + (kwargs[name] + b) == a + kwargs[name] + b;
    }
  }

  /** A setting formatted with kwargs: its field filled in, None when the argument is missing. */
  function Fill(s: Setting, kwargs: map<string, string>): (r: Option<string>)
  {
    match s
    case Text(text) => Some(text)
    case Field(before, name, after) => if name in kwargs then Some(before + kwargs[name] + after) else None
  }

  /** Filling a setting whose texts hold no braces is what str.format makes of it as written. */
  lemma FillIsFormat(s: Setting, kwargs: map<string, string>)
    requires s.Text? ==> BraceFree(s.text)
    requires s.Field? ==> BraceFree(s.before) && BraceFree(s.after) && '}' !in s.name
    ensures Format(Render(s), kwargs) == Fill(s, kwargs)
  {
    match s
    case Text(text) => FormatPlain(text, kwargs);
    case Field(before, name, after) => FormatOneField(before, name, after, kwargs);
  }

  /** format_message on a theme: the message of that key formatted, "" for a key the theme lacks. */
  function Message(theme: string, key: string, kwargs: map<string, string>): (r: Option<string>)
    requires KnownTheme(theme)
    ensures key !in ThemeDict(theme) ==> r == Some("")
  {
    var d := ThemeDict(theme);
    if key in d then Fill(d[key], kwargs) else Some("")
  }

  /** The win message names the player given, and cannot be formatted without one. */
  lemma WinMessageNamesPlayer(theme: string, kwargs: map<string, string>)
    requires KnownTheme(theme)
    ensures "player" in kwargs ==>
      Message(theme, "win_message", kwargs) ==
        Some("The " + kwargs["player"] + " have achieved " + Alignment(theme) + " alignment!")
    ensures "player" !in kwargs ==> Message(theme, "win_message", kwargs).None?
  {
    if "player" in kwargs {
      var tail := " have achieved " + Alignment(theme) + " alignment!";
      assert "The " + kwargs["player"] + tail == "The " + kwargs["player"] + " have achieved " + Alignment(theme) + " alignment!";
    }
  }

  /** The two faction names of a theme differ. */
  lemma FactionNamesDiffer(theme: string)
    requires KnownTheme(theme)
    ensures Player1Name(theme) != Player2Name(theme)
  {
  }

  class ThemeManager {
    var currentTheme: string

    predicate Valid()
      reads this
    {
      KnownTheme(currentTheme)
    }

    constructor()
      ensures Valid() && currentTheme == "fantasy"
    {
      currentTheme := "fantasy";
    }

    /** get_current_theme */
    function GetCurrentTheme(): map<string, Setting>
      requires Valid()
      reads this
    {
      ThemeDict(currentTheme)
    }

    /** switch_theme: toggle the theme and return its settings; the change signal is not modelled. */
    method SwitchTheme() returns (d: map<string, Setting>)
      requires Valid()
      modifies this
      ensures Valid()
      ensures currentTheme == Toggle(old(currentTheme)) && currentTheme != old(currentTheme)
      ensures d == ThemeDict(currentTheme)
    {
      currentTheme := if currentTheme == "fantasy" then "scifi" else "fantasy";
      d := GetCurrentTheme();
    }

    /** get_player_name: player 1's name for 1, player 2's for any other number. */
    function GetPlayerName(playerNumber: int): (name: string)
      requires Valid()
      reads this
      ensures playerNumber == 1 ==> name == Player1Name(currentTheme)
      ensures playerNumber != 1 ==> name == Player2Name(currentTheme)
    {
      var theme := GetCurrentTheme();
      if playerNumber == 1 then theme["player1_name"].text else theme["player2_name"].text
    }

    /** format_message: None where str.format raises. */
    function FormatMessage(messageKey: string, kwargs: map<string, string>): (r: Option<string>)
      requires Valid()
      reads this
      ensures r == Message(currentTheme, messageKey, kwargs)
    {
      var theme := GetCurrentTheme();
      if messageKey in theme then Fill(theme[messageKey], kwargs) else Some("")
    }
  }
}
