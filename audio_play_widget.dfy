// The audio player widget: the playlist, the song cursor, the play/pause/resume
// cycle of the play button and the enabled state of the four transport buttons.
// The mixer's "busy" flag, the existence of a file and the number of end-of-song
// events waiting in the queue are parameters; the widgets, the timers and the
// decoding of audio are not modelled.
module AudioPlayer {
  import opened Wrappers
  import PyStr

  /** A playlist entry: the track id and the path of its file. */
  datatype Entry = Entry(id: int, path: string)

  /** The label of the play button, which selects what pressing it does. */
  datatype Label = Play | Pause | Resume

  /** The buttons whose presses the widget handles; any other id is ignored. */
  datatype ButtonId = PlayButton | StopButton | BackButton | ForwardButton | OtherButton

  /** The label the play button shows after a successful press. */
  function AfterPlay(l: Label): (r: Label)
    ensures r != Play
    ensures r == Resume <==> l == Pause
  {
    match l
    case Play => Pause
    case Pause => Resume
    case Resume => Pause
  }

  /** Pausing and then resuming returns the play button to "pause". */
  lemma PauseResumeCycle(l: Label)
    requires l != Play
    ensures AfterPlay(AfterPlay(AfterPlay(l))) == AfterPlay(l)
  {
  }

  /** The song the back button moves to: one earlier, but never before the first. */
  function BackIndex(c: int): (r: int)
    ensures r >= 0
    ensures r == 0 <==> c <= 1
    ensures r <= c || c <= 0
  {
    if c - 1 <= 0 then 0 else c - 1
  }

  /** The song the forward button moves to: one later, but never past the last of `n`. */
  function ForwardIndex(c: int, n: int): (r: int)
    ensures r <= n - 1
    ensures r == n - 1 <==> c >= n - 2
    ensures r >= c || c >= n - 1
  {
    if c + 1 >= n - 1 then n - 1 else c + 1
  }

  /** Inside the playlist, back undoes forward except at the last song. */
  lemma {:induction false} BackUndoesForward(c: int, n: int)
    requires 0 <= c < n - 1
    ensures BackIndex(ForwardIndex(c, n)) == c
  {
  }

  /** Inside the playlist, forward undoes back except at the first song. */
  lemma {:induction false} ForwardUndoesBack(c: int, n: int)
    requires 1 <= c <= n - 1
    ensures ForwardIndex(BackIndex(c), n) == c
  {
  }

  /** Back and forward from a song of a non-empty playlist stay in the playlist. */
  lemma StepsStayInPlaylist(c: int, n: int)
    requires 0 <= c < n
    ensures 0 <= BackIndex(c) < n && 0 <= ForwardIndex(c, n) < n
  {
  }

  /**
   * The back and forward buttons' disabled flags after the cursor settled on
   * song `c` of `n`, given their flags `back` and `forward` before.
   */
  function PositionFlags(c: int, n: int, back: bool, forward: bool): (r: (bool, bool))
    // on a song of a playlist of two or more, back is off exactly at the first song and forward at the last
    ensures 0 <= c < n && n >= 2 ==> r == (c == 0, c == n - 1)
    // with a single song, back goes off and forward keeps its state
    ensures c == 0 && n == 1 ==> r == (true, forward)
    // past the end, forward goes off and back keeps its state (unless at position 0)
    ensures c >= n && c != 0 ==> r == (back, true)
  {
    var back1 := if c == 0 then true else back;
    var forward1 := if c != 0 && c >= n - 1 then true else forward;
    var back2 := if 0 < c < n then false else back1;
    var forward2 := if 0 <= c < n - 1 then false else forward1;
    (back2, forward2)
  }

  /** The playlist after `add_audio_file`: the entry goes to the end or to the top if its file exists. */
  function Added(playlist: seq<Entry>, audioFile: Option<Entry>, position: string,
                 exists_: string -> bool): (r: seq<Entry>)
  {
    if audioFile.Some? && exists_(audioFile.value.path) then
      if PyStr.Contains(position, "end") then playlist + [audioFile.value]
      else if PyStr.Contains(position, "top") then [audioFile.value] + playlist
      else playlist
    else playlist
  }

  /** Adding keeps every entry already there, in order, and adds at most the new one. */
  lemma AddedKeepsPlaylist(playlist: seq<Entry>, audioFile: Option<Entry>, position: string,
                           exists_: string -> bool)
    ensures var r := Added(playlist, audioFile, position, exists_);
            r == playlist ||
            (audioFile.Some? && exists_(audioFile.value.path) &&
             (r == playlist + [audioFile.value] || r == [audioFile.value] + playlist))
    ensures Added(playlist, audioFile, position, exists_) != playlist ==> audioFile.Some?
  {
  }

  /** The entries of `files` whose paths exist, in order: a playlist loaded entry by entry. */
  function Existing(files: seq<Entry>, exists_: string -> bool): (r: seq<Entry>)
    ensures |r| <= |files|
    ensures forall e :: e in r ==> e in files && exists_(e.path)
  {
    if files == [] then []
    else Existing(files[..|files| - 1], exists_) +
         (if exists_(files[|files| - 1].path) then [files[|files| - 1]] else [])
  }

  /** An entry is loaded exactly when it is listed and its file exists. */
  lemma {:induction false} ExistingMembers(files: seq<Entry>, exists_: string -> bool, e: Entry)
    ensures e in Existing(files, exists_) <==> e in files && exists_(e.path)
  {
    if files != [] {
      var init := files[..|files| - 1];
      ExistingMembers(init, exists_, e);
      assert files == init + [files[|files| - 1]];
    }
  }

  /**
   * The song positions announced by `k` end-of-song events starting at song `c`
   * of a playlist of `n`: each event moves one song on and announces the new
   * position while it is still in the playlist.
   */
  function EndPosts(c: int, k: nat, n: int): (r: seq<int>)
  {
    if k == 0 then [] else EndPosts(c, k - 1, n) + (if c + k < n then [c + k] else [])
  }

  /** The announced positions are the songs after `c`, one by one, up to the last of the playlist. */
  lemma {:induction false} EndPostsRange(c: int, k: nat, n: int)
    ensures |EndPosts(c, k, n)| == if c + k < n then k else if c + 1 < n then n - 1 - c else 0
    ensures forall i :: 0 <= i < |EndPosts(c, k, n)| ==> EndPosts(c, k, n)[i] == c + 1 + i
  {
    if k > 0 {
      EndPostsRange(c, k - 1, n);
    }
  }

  /** The player widget's state. */
  class Player {
    var playlist: seq<Entry>
    /** The index of the current song; -1 before any song was selected. */
    var currentSong: int
    var currentSongId: int
    var isPaused: bool
    var playLabel: Label
    var playDisabled: bool
    var stopDisabled: bool
    var backDisabled: bool
    var forwardDisabled: bool
    /** The positions announced with a `PositionChanged` message, oldest first. */
    var posted: seq<int>

    /** The pause flag follows the play button's label and the stop button is off only while stopped. */
    ghost predicate Valid()
      reads this
    {
      currentSong >= -1 && (isPaused <==> playLabel == Resume) && (stopDisabled <==> playLabel == Play)
    }

    constructor ()
      ensures playlist == [] && currentSong == -1 && currentSongId == -1 && !isPaused && playLabel == Play
      ensures playDisabled && stopDisabled && backDisabled && forwardDisabled && posted == []
      ensures Valid()
    {
      playlist := [];
      currentSong := -1;
      currentSongId := -1;
      isPaused := false;
      playLabel := Play;
      playDisabled := true;
      stopDisabled := true;
      backDisabled := true;
      forwardDisabled := true;
      posted := [];
    }

    /**
     * `play_audio`: "play" starts the current song (Python indexing, so -1 is
     * the last one; an empty playlist raises), "pause" pauses, "resume" resumes.
     */
    method PlayAudio() returns (r: Result<()>)
      modifies this`playLabel, this`stopDisabled, this`isPaused
      ensures r.Err? <==> old(playLabel) == Play && PyStr.PyIndex(playlist, currentSong).None?
      ensures r.Err? ==> r.error == IndexError && playLabel == old(playLabel) && stopDisabled == old(stopDisabled) && isPaused == old(isPaused)
      ensures r.Ok? ==> playLabel == AfterPlay(old(playLabel)) && (isPaused <==> playLabel == Resume)
      ensures r.Ok? && old(playLabel) == Play ==> !stopDisabled
      ensures old(playLabel) != Play ==> stopDisabled == old(stopDisabled)
      ensures old(Valid()) ==> Valid()
    {
      match playLabel {
        case Play =>
          if PyStr.PyIndex(playlist, currentSong).None? {
            return Err(IndexError);
          }
          playLabel := Pause;
          stopDisabled := false;
          isPaused := false;
        case Pause =>
          isPaused := true;
          playLabel := Resume;
        case Resume =>
          isPaused := false;
          playLabel := Pause;
      }
      r := Ok(());
    }

    /** `stop_audio`: playback stops and the buttons return to their stopped state. */
    method StopAudio()
      modifies this`playDisabled, this`playLabel, this`stopDisabled, this`isPaused
      ensures !playDisabled && playLabel == Play && stopDisabled && !isPaused
      ensures currentSong >= -1 ==> Valid()
    {
      playDisabled := false;
      playLabel := Play;
      stopDisabled := true;
      isPaused := false;
    }

    /**
     * `add_audio_file`: the entry is added if its file exists; with a non-empty
     * playlist and an idle mixer, play and forward are enabled and the first
     * song becomes current if none was.
     */
    method AddAudioFile(audioFile: Option<Entry>, position: string, exists_: string -> bool, busy: bool)
      modifies this`playlist, this`playDisabled, this`forwardDisabled, this`currentSong, this`currentSongId
      ensures playlist == Added(old(playlist), audioFile, position, exists_)
      ensures var ready := |playlist| > 0 && !busy;
              (ready ==> !playDisabled && !forwardDisabled) &&
              (!ready ==> playDisabled == old(playDisabled) && forwardDisabled == old(forwardDisabled))
      ensures if |playlist| > 0 && !busy && old(currentSong) == -1
              then currentSong == 0 && currentSongId == playlist[0].id
              else currentSong == old(currentSong) && currentSongId == old(currentSongId)
      ensures old(Valid()) ==> Valid()
    {
      playlist := Added(playlist, audioFile, position, exists_);
      if |playlist| > 0 && !busy {
        playDisabled := false;
        forwardDisabled := false;
        if currentSong == -1 {
          currentSong := 0;
          currentSongId := playlist[currentSong].id;
        }
      }
    }

    /** `on_new_playlist`: the playlist is rebuilt from the provider's entries whose files exist. */
    method OnNewPlaylist(files: seq<Entry>, exists_: string -> bool, busy: bool)
      modifies this`playlist, this`playDisabled, this`forwardDisabled, this`currentSong, this`currentSongId
      ensures playlist == Existing(files, exists_)
      ensures currentSong >= -1 ==> old(currentSong) >= -1
      ensures old(Valid()) ==> Valid()
    {
      playlist := [];
      for i := 0 to |files|
        invariant playlist == Existing(files[..i], exists_)
        invariant currentSong >= -1 ==> old(currentSong) >= -1
        invariant old(Valid()) ==> Valid()
      {
        assert files[..i + 1][..i] == files[..i];
        AddAudioFile(Some(files[i]), "end", exists_, busy);
      }
      assert files[..|files|] == files;
    }

    /**
     * `on_position_changed`: a position inside the playlist becomes the current
     * song and is played (restarted if the mixer was busy or paused); then the
     * back and forward buttons follow the position.
     */
    method OnPositionChanged(value: int, busy: bool)
      requires Valid()
      modifies this`currentSong, this`playLabel, this`stopDisabled, this`isPaused, this`playDisabled
      modifies this`backDisabled, this`forwardDisabled
      ensures currentSong == if 0 <= value < |playlist| then value else old(currentSong)
      ensures (backDisabled, forwardDisabled) ==
              PositionFlags(currentSong, |playlist|, old(backDisabled), old(forwardDisabled))
      ensures 0 <= value < |playlist| ==>
                playLabel == (if busy || old(isPaused) then Pause else AfterPlay(old(playLabel)))
      ensures !(0 <= value < |playlist|) ==> playLabel == old(playLabel) && isPaused == old(isPaused)
      ensures Valid()
    {
      if 0 <= value < |playlist| {
        currentSong := value;
        if busy || isPaused {
          StopAudio();
        }
        var played := PlayAudio();
      }
      var flags := PositionFlags(currentSong, |playlist|, backDisabled, forwardDisabled);
      backDisabled, forwardDisabled := flags.0, flags.1;
    }

    /**
     * After the cursor moved: a busy mixer restarts on the new song, a paused
     * one is stopped. Playing a position outside the playlist raises.
     */
    method Restart(busy: bool) returns (r: Result<()>)
      requires Valid()
      modifies this`playLabel, this`stopDisabled, this`isPaused, this`playDisabled
      ensures r.Err? <==> busy && PyStr.PyIndex(playlist, currentSong).None?
      ensures r.Ok? && busy ==> playLabel == Pause && !isPaused && !stopDisabled
      ensures !busy && old(isPaused) ==> playLabel == Play && !isPaused && stopDisabled && !playDisabled
      ensures !busy && !old(isPaused) ==> playLabel == old(playLabel) && isPaused == old(isPaused)
      ensures Valid()
    {
      r := Ok(());
      if busy {
        StopAudio();
        r := PlayAudio();
        if r.Err? {
          return;
        }
      }
      if isPaused {
        StopAudio();
      }
    }

    /** `on_button_pressed` for the back button: one song back, clamped at the first. */
    method Back(busy: bool) returns (r: Result<()>)
      requires Valid()
      modifies this`currentSong, this`backDisabled, this`forwardDisabled, this`posted
      modifies this`playLabel, this`stopDisabled, this`isPaused, this`playDisabled
      ensures currentSong == BackIndex(old(currentSong))
      ensures backDisabled == (old(currentSong) <= 1 || old(backDisabled)) && !forwardDisabled
      ensures posted == old(posted) + [currentSong]
      ensures r.Err? <==> busy && PyStr.PyIndex(playlist, currentSong).None?
      ensures r.Ok? && busy ==> playLabel == Pause && !isPaused
      ensures !busy && old(isPaused) ==> playLabel == Play && !isPaused
      ensures !busy && !old(isPaused) ==> playLabel == old(playLabel) && isPaused == old(isPaused)
      ensures Valid()
    {
      currentSong := currentSong - 1;
      if currentSong <= 0 {
        currentSong := 0;
        backDisabled := true;
      }
      forwardDisabled := false;
      posted := posted + [currentSong];
      r := Restart(busy);
    }

    /** `on_button_pressed` for the forward button: one song on, clamped at the last. */
    method Forward(busy: bool) returns (r: Result<()>)
      requires Valid()
      modifies this`currentSong, this`backDisabled, this`forwardDisabled, this`posted
      modifies this`playLabel, this`stopDisabled, this`isPaused, this`playDisabled
      ensures currentSong == ForwardIndex(old(currentSong), |playlist|)
      ensures forwardDisabled == (old(currentSong) >= |playlist| - 2 || old(forwardDisabled)) && !backDisabled
      ensures posted == old(posted) + [currentSong]
      ensures r.Err? <==> busy && PyStr.PyIndex(playlist, currentSong).None?
      ensures r.Ok? && busy ==> playLabel == Pause && !isPaused
      ensures !busy && old(isPaused) ==> playLabel == Play && !isPaused
      ensures !busy && !old(isPaused) ==> playLabel == old(playLabel) && isPaused == old(isPaused)
      ensures Valid()
    {
      currentSong := currentSong + 1;
      if currentSong >= |playlist| - 1 {
        currentSong := |playlist| - 1;
        forwardDisabled := true;
      }
      backDisabled := false;
      posted := posted + [currentSong];
      r := Restart(busy);
    }

    /** `on_button_pressed`: dispatch on the button's id. */
    method OnButtonPressed(button: ButtonId, busy: bool) returns (r: Result<()>)
      requires Valid()
      modifies this`currentSong, this`backDisabled, this`forwardDisabled, this`posted
      modifies this`playLabel, this`stopDisabled, this`isPaused, this`playDisabled
      ensures button == PlayButton ==>
                currentSong == old(currentSong) && (r.Ok? ==> playLabel == AfterPlay(old(playLabel)))
      ensures button == StopButton ==> r.Ok? && playLabel == Play && currentSong == old(currentSong)
      ensures button == BackButton ==> currentSong == BackIndex(old(currentSong))
      ensures button == ForwardButton ==> currentSong == ForwardIndex(old(currentSong), |playlist|)
      ensures button == OtherButton ==> r.Ok? && playLabel == old(playLabel) && currentSong == old(currentSong)
      ensures button !in {BackButton, ForwardButton} ==> posted == old(posted)
      ensures Valid()
    {
      r := Ok(());
      match button {
        case PlayButton => r := PlayAudio();
        case StopButton => StopAudio();
        case BackButton => r := Back(busy);
        case ForwardButton => r := Forward(busy);
        case OtherButton =>
      }
    }

    /**
     * One end-of-song event of `update_progress`: the next song is announced and
     * played while there is one, otherwise playback stops.
     */
    method SongEnded()
      requires Valid()
      modifies this`currentSong, this`posted, this`playLabel, this`stopDisabled, this`isPaused, this`playDisabled
      ensures currentSong == old(currentSong) + 1
      ensures currentSong < |playlist| ==> playLabel == Pause && !isPaused && posted == old(posted) + [currentSong]
      ensures currentSong >= |playlist| ==> playLabel == Play && posted == old(posted)
      ensures Valid()
    {
      currentSong := currentSong + 1;
      if |playlist| > currentSong {
        posted := posted + [currentSong];
        StopAudio();
        var played := PlayAudio();
      } else {
        StopAudio();
      }
    }

    /** The end-of-song events `update_progress` finds in the event queue, handled in turn. */
    method UpdateProgress(endEvents: nat)
      requires Valid()
      modifies this`currentSong, this`posted, this`playLabel, this`stopDisabled, this`isPaused, this`playDisabled
      ensures currentSong == old(currentSong) + endEvents
      ensures posted == old(posted) + EndPosts(old(currentSong), endEvents, |playlist|)
      ensures endEvents > 0 ==> (playLabel == Pause <==> currentSong < |playlist|)
      ensures endEvents == 0 ==> playLabel == old(playLabel)
      ensures Valid()
    {
      for i := 0 to endEvents
        invariant currentSong == old(currentSong) + i
        invariant posted == old(posted) + EndPosts(old(currentSong), i, |playlist|)
        invariant i > 0 ==> (playLabel == Pause <==> currentSong < |playlist|)
        invariant i == 0 ==> playLabel == old(playLabel)
        invariant Valid()
      {
        SongEnded();
      }
    }
  }
}
