/**
  Call sequences against a ledger, as a client of the contract sees them,
  with what each sequence is bound to produce.
 */
module Scenarios {
  import opened Wrappers
  import opened Access
  import opened Cursor
  import opened AeroContract

  const Engineer: Identity := Identity(Org1, Some(Maintenance))
  const FloorOperator: Identity := Identity(Org2, Some(Operator))

  /**
    Creating a record on a free key and reading it back returns the fields
    as created. Its `amrDesc` is the text of the transient `amr_desc` when
    one was supplied; otherwise it is the text of whatever the private
    collection already held under that key (empty bytes when nothing).
   */
  method ReadAfterCreate(world: map<string, Bytes>, overlay: map<string, Bytes>,
                         encode: Aero -> Bytes, decode: Bytes -> Option<Aero>, toText: Bytes -> string,
                         id: string, model: string, location: string, year: int,
                         amrType: string, amrStatus: string, transient: map<string, Bytes>)
    returns (created: Outcome<Error>, read: Result<Aero, Error>)
    requires Codec(encode, decode)
    requires id !in world || |world[id]| == 0
    ensures created == Pass
    ensures read == Success(Aero(model, location, year, amrType, amrStatus,
                                 Some(toText(if AmrDescKey in transient then transient[AmrDescKey]
                                             else if id in overlay then overlay[id] else []))))
  {
    var ledger := new AeroLedger(world, overlay, encode, decode, toText);
    WriteAccessTable(Engineer);
    created := ledger.CreateMyAero(Engineer, id, model, location, year, amrType, amrStatus, transient);
    read := ledger.ReadMyAero(id, true);
  }

  /**
    Deleting a record leaves its private entry behind: after create with a
    secret, delete, and create again without one, a read shows the secret
    of the deleted record.
   */
  method DeleteOrphansPrivateEntry(world: map<string, Bytes>, overlay: map<string, Bytes>,
                                   encode: Aero -> Bytes, decode: Bytes -> Option<Aero>, toText: Bytes -> string,
                                   id: string, secret: Bytes, first: Aero, second: Aero)
    returns (existsAfterDelete: bool, read: Result<Aero, Error>)
    requires Codec(encode, decode)
    requires id !in world || |world[id]| == 0
    ensures !existsAfterDelete
    ensures read == Success(Aero(second.model, second.location, second.year, second.amrType, second.amrStatus,
                                 Some(toText(secret))))
  {
    var ledger := new AeroLedger(world, overlay, encode, decode, toText);
    WriteAccessTable(Engineer);
    DeleteAccessTable(FloorOperator);
    var out := ledger.CreateMyAero(Engineer, id, first.model, first.location, first.year,
                                   first.amrType, first.amrStatus, map[AmrDescKey := secret]);
    out := ledger.DeleteMyAero(FloorOperator, id);
    existsAfterDelete := ledger.MyAeroExists(id);
    out := ledger.CreateMyAero(Engineer, id, second.model, second.location, second.year,
                               second.amrType, second.amrStatus, map[]);
    read := ledger.ReadMyAero(id, true);
  }

  /**
    Callers whose claimed role is not bound to their organisation are
    turned away by every write, and neither map changes.
   */
  method SpoofedCallersChangeNothing(world: map<string, Bytes>, overlay: map<string, Bytes>,
                                     encode: Aero -> Bytes, decode: Bytes -> Option<Aero>, toText: Bytes -> string,
                                     id: string, fields: Aero, transient: map<string, Bytes>)
    returns (created: Outcome<Error>, updated: Outcome<Error>, deleted: Outcome<Error>,
             worldAfter: map<string, Bytes>, overlayAfter: map<string, Bytes>)
    requires Codec(encode, decode)
    ensures created == Fail(Unauthorized(CreateDenied))
    ensures updated == Fail(Unauthorized(UpdateDenied))
    ensures deleted == Fail(Unauthorized(DeleteDenied))
    ensures worldAfter == world && overlayAfter == overlay
  {
    var ledger := new AeroLedger(world, overlay, encode, decode, toText);
    CrossOrganisationClaimsDenied();
    created := ledger.CreateMyAero(Identity(Org2, Some(Maintenance)), id, fields.model, fields.location,
                                   fields.year, fields.amrType, fields.amrStatus, transient);
    updated := ledger.UpdateMyAero(Identity(Org2, Some(Maintenance)), id, fields.model, fields.location,
                                   fields.year, fields.amrType, fields.amrStatus);
    deleted := ledger.DeleteMyAero(Identity(Org1, Some(Operator)), id);
    worldAfter, overlayAfter := ledger.world, ledger.maintenanceRecord;
  }

  /** A second create on the same key fails and leaves the first record in place. */
  method CreateTwice(world: map<string, Bytes>, overlay: map<string, Bytes>,
                     encode: Aero -> Bytes, decode: Bytes -> Option<Aero>, toText: Bytes -> string,
                     id: string, first: Aero, second: Aero, transient: map<string, Bytes>)
    returns (again: Outcome<Error>, stored: Option<Aero>)
    requires Codec(encode, decode)
    requires id !in world || |world[id]| == 0
    ensures again == Fail(AlreadyExists(id))
    ensures stored == Some(Aero(first.model, first.location, first.year, first.amrType, first.amrStatus, None))
  {
    var ledger := new AeroLedger(world, overlay, encode, decode, toText);
    WriteAccessTable(Engineer);
    var out := ledger.CreateMyAero(Engineer, id, first.model, first.location, first.year,
                                   first.amrType, first.amrStatus, map[]);
    again := ledger.CreateMyAero(Engineer, id, second.model, second.location, second.year,
                                 second.amrType, second.amrStatus, transient);
    stored := decode(ledger.GetState(id));
  }
}
