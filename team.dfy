/**
 * The match/team form: two rosters held between one and eleven players,
 * team selection from the dropdown, the "A vs B" title and the reset after
 * a submission.
 */
module Team {
  import opened Options

  const MaxPlayers: nat := 11
  const MinPlayers: nat := 1

  datatype Player = Player(name: string, playerType: string)

  datatype TeamOption = TeamOption(name: string, code: string)

  /** createPlayer: a player with empty name and type. */
  function EmptyPlayer(): Player {
    Player("", "")
  }

  /** A roster after addTeamAPlayer/addTeamBPlayer: one empty player appended while below eleven. */
  function AddPlayer(players: seq<Player>): (r: seq<Player>)
    ensures |players| <= |r| <= |players| + 1 && r[..|players|] == players
    ensures |r| > |players| <==> |players| < MaxPlayers
    ensures |r| > |players| ==> r[|players|] == EmptyPlayer()
  {
    if |players| < MaxPlayers then players + [EmptyPlayer()] else players
  }

  /** A roster after removeTeamAPlayer/removeTeamBPlayer: the last player dropped while above one. */
  function RemoveLastPlayer(players: seq<Player>): (r: seq<Player>)
    ensures |players| - 1 <= |r| <= |players| && r == players[..|r|]
    ensures |r| < |players| <==> |players| > MinPlayers
  {
    if |players| > MinPlayers then players[..|players| - 1] else players
  }

  /** The title autoFillTitle writes when both names are set. */
  function MatchTitle(teamAName: string, teamBName: string): string {
    teamAName + " vs " + teamBName
  }

  // ---------------------------------------------------------------------------
  // Roster bounds over any sequence of add/remove clicks.
  // ---------------------------------------------------------------------------

  datatype RosterAction = AddA | RemoveA | AddB | RemoveB

  datatype Rosters = Rosters(teamA: seq<Player>, teamB: seq<Player>)

  /** One click: only the roster it names changes. */
  function Apply(r: Rosters, action: RosterAction): Rosters {
    match action
    case AddA => r.(teamA := AddPlayer(r.teamA))
    case RemoveA => r.(teamA := RemoveLastPlayer(r.teamA))
    case AddB => r.(teamB := AddPlayer(r.teamB))
    case RemoveB => r.(teamB := RemoveLastPlayer(r.teamB))
  }

  function Run(r: Rosters, actions: seq<RosterAction>): Rosters
    decreases actions
  {
    if actions == [] then r else Run(Apply(r, actions[0]), actions[1..])
  }

  predicate InBounds(players: seq<Player>) {
    MinPlayers <= |players| <= MaxPlayers
  }

  /** Rosters that start between one and eleven players stay there, whatever is clicked. */
  lemma {:induction false} RostersStayInBounds(r: Rosters, actions: seq<RosterAction>)
    requires InBounds(r.teamA) && InBounds(r.teamB)
    ensures InBounds(Run(r, actions).teamA) && InBounds(Run(r, actions).teamB)
    decreases actions
  {
    if actions != [] {
      RostersStayInBounds(Apply(r, actions[0]), actions[1..]);
    }
  }

  /** Team B's clicks never touch Team A's roster, and the other way round. */
  lemma {:induction false} RostersIndependent(r: Rosters, actions: seq<RosterAction>)
    ensures (forall n | 0 <= n < |actions| :: actions[n] == AddB || actions[n] == RemoveB) ==>
              Run(r, actions).teamA == r.teamA
    ensures (forall n | 0 <= n < |actions| :: actions[n] == AddA || actions[n] == RemoveA) ==>
              Run(r, actions).teamB == r.teamB
    decreases actions
  {
    if actions != [] {
      RostersIndependent(Apply(r, actions[0]), actions[1..]);
      assert forall n | 0 <= n < |actions| - 1 :: actions[1..][n] == actions[n + 1];
    }
  }

  /** Removing after adding gives the roster back when it had room. */
  lemma AddThenRemove(players: seq<Player>)
    requires MinPlayers <= |players| < MaxPlayers
    ensures RemoveLastPlayer(AddPlayer(players)) == players
  {
  }

  class TeamForm {
    var matchId: string
    var eventId: string
    var matchType: string
    var title: string
    var teamAName: string
    var teamAShortCode: string
    var teamAPlayers: seq<Player>
    var teamBName: string
    var teamBShortCode: string
    var teamBPlayers: seq<Player>

    var showPreview: bool
    var submitMessage: string
    /** Selected flag files, by file name. */
    var teamAFlagFile: Option<string>
    var teamBFlagFile: Option<string>
    var teamAFlagPreview: Option<string>
    var teamBFlagPreview: Option<string>
    var showTeamADropdown: bool
    var showTeamBDropdown: bool

    /** createTeamForm: every field empty, no players yet. */
    constructor ()
      ensures matchId == "" && eventId == "" && matchType == "" && title == ""
      ensures teamAName == "" && teamAShortCode == "" && teamBName == "" && teamBShortCode == ""
      ensures teamAPlayers == [] && teamBPlayers == []
      ensures !showPreview && submitMessage == ""
      ensures teamAFlagFile.None? && teamBFlagFile.None? && teamAFlagPreview.None? && teamBFlagPreview.None?
      ensures !showTeamADropdown && !showTeamBDropdown
    {
      matchId, eventId, matchType, title := "", "", "", "";
      teamAName, teamAShortCode, teamBName, teamBShortCode := "", "", "", "";
      teamAPlayers, teamBPlayers := [], [];
      showPreview, submitMessage := false, "";
      teamAFlagFile, teamBFlagFile, teamAFlagPreview, teamBFlagPreview := None, None, None, None;
      showTeamADropdown, showTeamBDropdown := false, false;
    }

    /** initializeForm: one add on each roster; a fresh form ends with one player per team. */
    method InitializeForm()
      modifies this`teamAPlayers, this`teamBPlayers
      ensures teamAPlayers == AddPlayer(old(teamAPlayers)) && teamBPlayers == AddPlayer(old(teamBPlayers))
      ensures old(teamAPlayers) == [] ==> teamAPlayers == [EmptyPlayer()]
      ensures old(teamBPlayers) == [] ==> teamBPlayers == [EmptyPlayer()]
    {
      AddTeamAPlayer();
      AddTeamBPlayer();
    }

    method AddTeamAPlayer()
      modifies this`teamAPlayers
      ensures teamAPlayers == AddPlayer(old(teamAPlayers))
    {
      if |teamAPlayers| < MaxPlayers {
        teamAPlayers := teamAPlayers + [EmptyPlayer()];
      }
    }

    method RemoveTeamAPlayer()
      modifies this`teamAPlayers
      ensures teamAPlayers == RemoveLastPlayer(old(teamAPlayers))
    {
      if |teamAPlayers| > MinPlayers {
        teamAPlayers := teamAPlayers[..|teamAPlayers| - 1];
      }
    }

    method AddTeamBPlayer()
      modifies this`teamBPlayers
      ensures teamBPlayers == AddPlayer(old(teamBPlayers))
    {
      if |teamBPlayers| < MaxPlayers {
        teamBPlayers := teamBPlayers + [EmptyPlayer()];
      }
    }

    method RemoveTeamBPlayer()
      modifies this`teamBPlayers
      ensures teamBPlayers == RemoveLastPlayer(old(teamBPlayers))
    {
      if |teamBPlayers| > MinPlayers {
        teamBPlayers := teamBPlayers[..|teamBPlayers| - 1];
      }
    }

    /** autoFillTitle: "A vs B" once both names are non-empty, else the title stays. */
    method AutoFillTitle()
      modifies this`title
      ensures title == if teamAName != "" && teamBName != "" then MatchTitle(teamAName, teamBName) else old(title)
    {
      if teamAName != "" && teamBName != "" {
        title := MatchTitle(teamAName, teamBName);
      }
    }

    /**
     * selectTeamA: name and short code taken from the option and the dropdown
     * closed; the name change fires the title auto-fill subscribed in ngOnInit.
     */
    method SelectTeamA(team: TeamOption)
      modifies this`teamAName, this`teamAShortCode, this`showTeamADropdown, this`title
      ensures teamAName == team.name && teamAShortCode == team.code && !showTeamADropdown
      ensures title == if team.name != "" && teamBName != "" then MatchTitle(team.name, teamBName) else old(title)
    {
      teamAName, teamAShortCode := team.name, team.code;
      AutoFillTitle();
      showTeamADropdown := false;
    }

    /** selectTeamB: the same for team B. */
    method SelectTeamB(team: TeamOption)
      modifies this`teamBName, this`teamBShortCode, this`showTeamBDropdown, this`title
      ensures teamBName == team.name && teamBShortCode == team.code && !showTeamBDropdown
      ensures title == if teamAName != "" && team.name != "" then MatchTitle(teamAName, team.name) else old(title)
    {
      teamBName, teamBShortCode := team.name, team.code;
      AutoFillTitle();
      showTeamBDropdown := false;
    }

    /** The two `while` loops of resetForm: `removeAt(0)` until each roster is empty. */
    method ClearRosters()
      modifies this`teamAPlayers, this`teamBPlayers
      ensures teamAPlayers == [] && teamBPlayers == []
    {
      while |teamAPlayers| != 0
        modifies this`teamAPlayers
        decreases |teamAPlayers|
      {
        teamAPlayers := teamAPlayers[1..];
      }
      while |teamBPlayers| != 0
        modifies this`teamBPlayers
        decreases |teamBPlayers|
      {
        teamBPlayers := teamBPlayers[1..];
      }
    }

    /** `teamForm.reset()`: every control of the form back to empty; the rosters keep their length. */
    method ResetControls()
      modifies this`matchId, this`eventId, this`matchType, this`title
      modifies this`teamAName, this`teamAShortCode, this`teamBName, this`teamBShortCode
      ensures matchId == "" && eventId == "" && matchType == "" && title == ""
      ensures teamAName == "" && teamAShortCode == "" && teamBName == "" && teamBShortCode == ""
    {
      matchId, eventId, matchType, title := "", "", "", "";
      teamAName, teamAShortCode, teamBName, teamBShortCode := "", "", "", "";
    }

    /**
     * resetForm: every field cleared, no flag files or previews, each roster
     * drained from the front and given one empty player, preview hidden.
     */
    method ResetForm()
      modifies this`matchId, this`eventId, this`matchType, this`title
      modifies this`teamAName, this`teamAShortCode, this`teamBName, this`teamBShortCode
      modifies this`teamAFlagFile, this`teamBFlagFile, this`teamAFlagPreview, this`teamBFlagPreview
      modifies this`teamAPlayers, this`teamBPlayers, this`showPreview, this`submitMessage
      ensures matchId == "" && eventId == "" && matchType == "" && title == ""
      ensures teamAName == "" && teamAShortCode == "" && teamBName == "" && teamBShortCode == ""
      ensures teamAPlayers == [EmptyPlayer()] && teamBPlayers == [EmptyPlayer()]
      ensures teamAFlagFile.None? && teamBFlagFile.None? && teamAFlagPreview.None? && teamBFlagPreview.None?
      ensures !showPreview && submitMessage == ""
    {
      ResetControls();
      teamAFlagFile, teamBFlagFile := None, None;
      teamAFlagPreview, teamBFlagPreview := None, None;
      ClearRosters();
      assert AddPlayer([]) == [EmptyPlayer()];
      AddTeamAPlayer();
      AddTeamBPlayer();
      showPreview := false;
      submitMessage := "";
    }
  }
}
