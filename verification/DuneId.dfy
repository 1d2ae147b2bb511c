/** Dune identifiers: where a dune was etched, and the steps between them. */
module DuneIds {
  import opened Wrappers
  import opened Bytes

  datatype DuneId = DuneId(block: nat, tx: nat)

  const DEFAULT_ID := DuneId(0, 0)

  predicate Sized(id: DuneId) {
    id.block < U64 && id.tx < U32
  }

  /** Block zero holds no dune but the default one. */
  predicate Exists(id: DuneId) {
    id.block > 0 || id.tx == 0
  }

  function New(block: nat, tx: nat): Option<DuneId> {
    if block == 0 && tx > 0 then None else Some(DuneId(block, tx))
  }

  predicate AtMost(a: DuneId, b: DuneId) {
    a.block < b.block || (a.block == b.block && a.tx <= b.tx)
  }

  function Delta(id: DuneId, next: DuneId): Option<(nat, nat)> {
    if next.block < id.block then None
    else if next.block > id.block then Some((next.block - id.block, next.tx))
    else if next.tx < id.tx then None
    else Some((0, next.tx - id.tx))
  }

  /** Steps forward by 128-bit numbers, which must fit the narrower fields. */
  function Next(id: DuneId, block: nat, tx: nat): Option<DuneId> {
    if block >= U64 || id.block + block >= U64 then None
    else if tx >= U32 then None
    else if block == 0 then if id.tx + tx >= U32 then None else New(id.block, id.tx + tx)
    else New(id.block + block, tx)
  }

  /** A delta exists exactly between ordered identifiers, and stepping by it arrives if there is a dune. */
  lemma NextUndoesDelta(id: DuneId, next: DuneId)
    requires Sized(id) && Sized(next)
    ensures Delta(id, next).Some? <==> AtMost(id, next)
    ensures AtMost(id, next) ==> var (block, tx) := Delta(id, next).value;
              && block < U64 && tx < U32
              && Next(id, block, tx) == if Exists(next) then Some(next) else None
  {
  }

  /** A step of any size: both parts fit their fields, and only the default dune is in block 0. */
  lemma NextIff(id: DuneId, block: nat, tx: nat, next: DuneId)
    requires Sized(id)
    ensures Next(id, block, tx) == Some(next)
       <==> Sized(next) && Exists(next) && next == DuneId(id.block + block, if block == 0 then id.tx + tx else tx)
  {
  }
}
