/** The entities the Ressarcimento REST controller handles, and the responses it gives. */
module Domain {

  /** A database identifier (a Java Long; unbounded here). */
  type Id = int

  /** A value that may be absent, standing for a nullable Java reference. */
  datatype Option<+T> = None | Some(value: T)

  /** Permission level of an account. Only ADMIN and OPERADOR are named by the controller;
      every other level of the enumeration is represented by Other. */
  datatype NivelPermissao = ADMIN | OPERADOR | Other

  /** An account (Conta). Two accounts are the same account when they are equal values. */
  datatype Conta = Conta(id: Id, nivelPermissao: NivelPermissao)

  /** A reimbursement record (Ressarcimento): its id (null before it is first saved),
      the account that owns it, and its remaining columns, which the controller never inspects. */
  datatype Ressarcimento = Ressarcimento(id: Option<Id>, conta: Conta, attributes: string)

  /** What an endpoint answers. The two exceptions the controller throws become
      BadRequest (carrying the error key) and NotAuthorized. */
  datatype Outcome =
    | Created(rec: Ressarcimento, location: string)   // 201 with a Location header
    | Ok(rec: Ressarcimento)                          // 200 with one record
    | OkList(recs: seq<Ressarcimento>)                // 200 with a list of records
    | OkDeleted                                       // 200 with no body
    | NotFound                                        // 404
    | BadRequest(errorKey: string)                    // BadRequestAlertException
    | NotAuthorized                                   // UserNotAuthorizedException
}
