/** The identity of a session inside the product. */
module Sessions {

  /** An internal session: one external session of one tenant. */
  datatype SessionId = SessionId(tenant: nat, session: string)
}
