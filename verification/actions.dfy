/** Client actions: what a watcher event becomes (Action.h). */
module Actions {
  import opened Wire

  datatype FileStatus = Created | Modified | Erased

  /** Blank is the default-constructed action a std::map subscript leaves behind. */
  datatype Action =
    | Change(path: string, status: FileStatus, kind: int)
    | Restoration(date: string, target: string)
    | Blank

  /** The constructor's switch: a modified directory is ignored. */
  function Classify(path: string, status: FileStatus, isDirectory: bool): (a: Action)
    ensures a.Change? && a.path == path && a.status == status
    ensures a.kind == IGNORE <==> isDirectory && status == Modified
    ensures a.kind == CREATE_FOLDER <==> isDirectory && status == Created
    ensures a.kind == DELETE_PATH <==> status == Erased
    ensures a.kind in {READ_FILE, CREATE_FOLDER, DELETE_PATH, IGNORE}
  {
    Change(path, status,
      match status
      case Created => if isDirectory then CREATE_FOLDER else READ_FILE
      case Modified => if isDirectory then IGNORE else READ_FILE
      case Erased => DELETE_PATH)
  }
}
