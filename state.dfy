/**
 * The session-state manager (core/state.py): typed access to the session
 * store the user interface keeps between reruns. The store is a map from
 * keys to values; the manager owns four keys and leaves the others alone
 * until a full reset clears them all.
 */
module State {
  import opened Wrappers
  import opened Models

  const KeyMultiFiles: string := "state_multi_files"
  const KeySingleResult: string := "state_single_result"
  const KeyIsProcessing: string := "state_is_processing"
  const KeyStopSignal: string := "state_stop_signal"

  /** What the session store holds under a key: the file table, an analysis result, a flag, or anything else the interface keeps. */
  datatype Slot = Files(files: map<string, FileState>) | Result(result: AnalysisResult) | Flag(flag: bool) | Other

  /** The manager's keys, where present, hold values of their declared kinds. */
  predicate WellTyped(session: map<string, Slot>) {
    && (KeyMultiFiles in session ==> session[KeyMultiFiles].Files?)
    && (KeySingleResult in session ==> session[KeySingleResult].Result?)
    && (KeyIsProcessing in session ==> session[KeyIsProcessing].Flag?)
    && (KeyStopSignal in session ==> session[KeyStopSignal].Flag?)
  }

  /** The store after `__init__`: the file table and the processing flag are added where missing. */
  function Structured(session: map<string, Slot>): (r: map<string, Slot>)
    ensures KeyMultiFiles in r && KeyIsProcessing in r
    ensures forall k :: k in session ==> k in r && r[k] == session[k]
    ensures forall k :: k in r && k !in session ==> k == KeyMultiFiles || k == KeyIsProcessing
    ensures KeyMultiFiles !in session ==> r[KeyMultiFiles] == Files(map[])
    ensures KeyIsProcessing !in session ==> r[KeyIsProcessing] == Flag(false)
  {
    var s1 := if KeyMultiFiles in session then session else session[KeyMultiFiles := Files(map[])];
    if KeyIsProcessing in s1 then s1 else s1[KeyIsProcessing := Flag(false)]
  }

  /** The store right after a full reset. */
  const Fresh: map<string, Slot> := map[KeyMultiFiles := Files(map[]), KeyIsProcessing := Flag(false)]

  /** A file's row after `update_multi_file`: the status always, the result only if given, the error only if non-empty. */
  function Updated(st: FileState, status: string, result: Option<AnalysisResult>, error: Option<string>): (r: FileState)
    ensures r.filename == st.filename && r.status == status
    ensures r.result == (if result.Some? then result else st.result)
    ensures r.errorMessage == (if error.Some? && error.value != "" then error else st.errorMessage)
  {
    var r := st.(status := status);
    var r := if result.Some? then r.(result := result) else r;
    if error.Some? && error.value != "" then r.(errorMessage := error) else r
  }

  /** The file table after `update_multi_file`. */
  function UpdateFiles(
    files: map<string, FileState>, filename: string, status: string,
    result: Option<AnalysisResult>, error: Option<string>): map<string, FileState>
  {
    if filename in files then files[filename := Updated(files[filename], status, result, error)] else files
  }

  /** Updating an unknown file changes nothing; updating a known one touches no other file and no key. */
  lemma UpdateFilesFrame(
    files: map<string, FileState>, filename: string, status: string,
    result: Option<AnalysisResult>, error: Option<string>)
    ensures var r := UpdateFiles(files, filename, status, result, error);
      && r.Keys == files.Keys
      && (filename !in files ==> r == files)
      && (forall g :: g in files && g != filename ==> r[g] == files[g])
      && (filename in files ==> r[filename].status == status && r[filename].filename == files[filename].filename)
  {
  }

  /** Updating without a result and with an empty error message only changes the status. */
  lemma UpdateStatusOnly(files: map<string, FileState>, filename: string, status: string)
    requires filename in files
    ensures UpdateFiles(files, filename, status, None, Some("")) == files[filename := files[filename].(status := status)]
    ensures UpdateFiles(files, filename, status, None, None) == files[filename := files[filename].(status := status)]
  {
  }

  /** The row `init_multi_file` writes. The start time is not modelled. */
  function Pending(filename: string): (r: FileState)
    ensures r.filename == filename && r.status == "pending" && r.result.None? && r.errorMessage.None?
  {
    FileState(filename, "pending", None, None)
  }

  class StateManager {
    var session: map<string, Slot>

    predicate Valid()
      reads this
    {
      WellTyped(session) && KeyMultiFiles in session && KeyIsProcessing in session
    }

    /** `__init__` over the store as the interface left it. */
    constructor(initial: map<string, Slot>)
      requires WellTyped(initial)
      ensures Valid() && session == Structured(initial)
    {
      session := initial;
      new;
      EnsureStructure();
    }

    /** The body of `__init__`: add the file table and the processing flag where missing. */
    method EnsureStructure()
      requires WellTyped(session)
      modifies this
      ensures Valid() && session == Structured(old(session))
    {
      if KeyMultiFiles !in session {
        session := session[KeyMultiFiles := Files(map[])];
      }
      if KeyIsProcessing !in session {
        session := session[KeyIsProcessing := Flag(false)];
      }
    }

    /** `is_processing`; false where the flag is absent. */
    function IsProcessing(): bool
      reads this
      requires WellTyped(session)
    {
      if KeyIsProcessing in session then session[KeyIsProcessing].flag else false
    }

    /** `stop_signal`; false where the flag is absent. */
    function StopSignal(): bool
      reads this
      requires WellTyped(session)
    {
      if KeyStopSignal in session then session[KeyStopSignal].flag else false
    }

    /** `get_all_files` */
    function AllFiles(): map<string, FileState>
      reads this
      requires Valid()
    {
      session[KeyMultiFiles].files
    }

    /** `get_multi_file_state` */
    function MultiFileState(filename: string): (r: Option<FileState>)
      reads this
      requires Valid()
      ensures r.Some? <==> filename in AllFiles()
      ensures r.Some? ==> r.value == AllFiles()[filename]
    {
      if filename in AllFiles() then Some(AllFiles()[filename]) else None
    }

    /** `get_single_result` */
    function SingleResult(): (r: Option<AnalysisResult>)
      reads this
      requires WellTyped(session)
      ensures r.Some? <==> KeySingleResult in session
    {
      if KeySingleResult in session then Some(session[KeySingleResult].result) else None
    }

    /** The `is_processing` setter. */
    method SetProcessing(value: bool)
      requires Valid()
      modifies this
      ensures session == old(session)[KeyIsProcessing := Flag(value)]
      ensures Valid() && IsProcessing() == value
    {
      session := session[KeyIsProcessing := Flag(value)];
    }

    /** `trigger_stop` */
    method TriggerStop()
      requires Valid()
      modifies this
      ensures session == old(session)[KeyStopSignal := Flag(true)]
      ensures Valid() && StopSignal()
    {
      session := session[KeyStopSignal := Flag(true)];
    }

    /** `clear_stop` */
    method ClearStop()
      requires Valid()
      modifies this
      ensures session == old(session)[KeyStopSignal := Flag(false)]
      ensures Valid() && !StopSignal()
    {
      session := session[KeyStopSignal := Flag(false)];
    }

    /** `init_multi_file`: a pending row, replacing any earlier one. */
    method InitMultiFile(filename: string)
      requires Valid()
      modifies this
      ensures Valid() && AllFiles() == old(AllFiles())[filename := Pending(filename)]
      ensures forall k :: k != KeyMultiFiles ==> (k in session <==> k in old(session))
      ensures forall k :: k in session && k != KeyMultiFiles ==> session[k] == old(session)[k]
    {
      var files := session[KeyMultiFiles].files;
      files := files[filename := Pending(filename)];
      session := session[KeyMultiFiles := Files(files)];
    }

    /** `update_multi_file` */
    method UpdateMultiFile(filename: string, status: string, result: Option<AnalysisResult>, error: Option<string>)
      requires Valid()
      modifies this
      ensures Valid() && AllFiles() == UpdateFiles(old(AllFiles()), filename, status, result, error)
      ensures forall k :: k != KeyMultiFiles ==> (k in session <==> k in old(session))
      ensures forall k :: k in session && k != KeyMultiFiles ==> session[k] == old(session)[k]
    {
      var files := session[KeyMultiFiles].files;
      if filename in files {
        var st := files[filename];
        st := st.(status := status);
        if result.Some? {
          st := st.(result := result);
        }
        if error.Some? && error.value != "" {
          st := st.(errorMessage := error);
        }
        session := session[KeyMultiFiles := Files(files[filename := st])];
      }
    }

    /** `clear_multi_files` */
    method ClearMultiFiles()
      requires Valid()
      modifies this
      ensures session == old(session)[KeyMultiFiles := Files(map[])]
      ensures Valid() && AllFiles() == map[]
    {
      session := session[KeyMultiFiles := Files(map[])];
    }

    /** `set_single_result` */
    method SetSingleResult(result: AnalysisResult)
      requires Valid()
      modifies this
      ensures session == old(session)[KeySingleResult := Result(result)]
      ensures Valid() && SingleResult() == Some(result)
    {
      session := session[KeySingleResult := Result(result)];
    }

    /** `clear_single_result`: removes the stored result; without one nothing changes. */
    method ClearSingleResult()
      requires Valid()
      modifies this
      ensures session == old(session) - {KeySingleResult}
      ensures KeySingleResult !in old(session) ==> session == old(session)
      ensures Valid() && SingleResult().None?
    {
      if KeySingleResult in session {
        session := session - {KeySingleResult};
      }
    }

    /** `reset_all`: every key is dropped, then the structure is rebuilt. */
    method ResetAll()
      requires Valid()
      modifies this
      ensures session == Fresh
      ensures Valid() && AllFiles() == map[] && SingleResult().None? && !IsProcessing() && !StopSignal()
    {
      ClearMultiFiles();
      ClearSingleResult();
      SetProcessing(false);
      ClearStop();
      session := map[];
      EnsureStructure();
    }
  }

  /** A fresh store holds exactly the file table and the processing flag, both empty or false. */
  lemma FreshIsStructuredEmpty()
    ensures Fresh == Structured(map[])
    ensures Fresh.Keys == {KeyMultiFiles, KeyIsProcessing}
  {
  }

  /** `__init__` is idempotent: restructuring a structured store changes nothing. */
  lemma StructuredIdempotent(session: map<string, Slot>)
    ensures Structured(Structured(session)) == Structured(session)
  {
  }
}
