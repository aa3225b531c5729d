/**
 persistLocked over a real directory: the candidate sets the engine's model gives the two
 files after a save are those a crash can leave of them, for each way the save can end.
 */
module Stores {
  import opened MonitorRecord
  import opened RecoveryMachine
  import opened System
  import opened Persistence

  method PersistBoth(
    disk: Disk, p: Part<Records>, q: Part<History>, due: bool, first: Faults, second: Faults, ghost s: Sys)
    returns (ok: bool, ghost save: Save, ghost during: seq<Image>)
    requires disk.Valid() && PartCovers(disk.image, p, p.candidates) && PartCovers(disk.image, q, q.candidates)
    requires p.name != q.name && p.tmp !in {p.name, q.name, q.tmp} && q.tmp !in {p.name, q.name}
    requires p.tmp !in disk.names && q.tmp !in disk.names
    requires p.value == s.recs && p.candidates == s.disk && q.value == s.log && q.candidates == s.diskLog
    requires due == s.dirty
    modifies disk
    ensures disk.Valid() && AllBetween(during, p, q)
    ensures PartCovers(disk.image, p, Persist(s, save).disk) && PartCovers(disk.image, q, Persist(s, save).diskLog)
    ensures ok <==> save.Saved?
  {
    hide PartCovers, AllBetween;
    var saved;
    saved, ok, during := SaveBoth(disk, p, q, due, first, second);
    save := if !saved then StateFailed else if !ok then EventsFailed else Saved;
  }
}
