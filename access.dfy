/** The role gate in front of the vault's mutating operations, as a pure
    authorisation table independent of the ledger. */
module Access {

  datatype Role = Depositor | Balancer | Setter | Pauser | Unpauser

  datatype Operation =
    | Deposit
    | DepositToSymmio
    | RequestWithdraw
    | AcceptWithdrawRequest
    | ClaimForWithdrawRequest
    | SetDepositLimit
    | Pause
    | Unpause

  datatype Option<T> = None | Some(value: T)

  /** The one role an operation needs, or None when any caller may invoke it. */
  function RequiredRole(op: Operation): (role: Option<Role>)
  {
    match op
    case Deposit => None
    case RequestWithdraw => None
    case ClaimForWithdrawRequest => None
    case DepositToSymmio => Some(Depositor)
    case AcceptWithdrawRequest => Some(Balancer)
    case SetDepositLimit => Some(Setter)
    case Pause => Some(Pauser)
    case Unpause => Some(Unpauser)
  }

  /** A caller holding `held` may perform `op`. */
  predicate Authorized(held: set<Role>, op: Operation)
  {
    match RequiredRole(op)
    case None => true
    case Some(role) => role in held
  }

  /** A caller without any role may still deposit, request a withdrawal and
      claim, but nothing else. */
  lemma NoRoleCallerScope(op: Operation)
    ensures Authorized({}, op) <==> op in {Deposit, RequestWithdraw, ClaimForWithdrawRequest}
  {
  }

  /** A caller holding a single role may perform the operations open to
      everyone and exactly the one operation that role gates. */
  lemma SingleRoleScope(op: Operation, role: Role)
    ensures Authorized({role}, op) <==>
              op in {Deposit, RequestWithdraw, ClaimForWithdrawRequest}
              || (role, op) in {(Depositor, DepositToSymmio), (Balancer, AcceptWithdrawRequest),
                                (Setter, SetDepositLimit), (Pauser, Pause), (Unpauser, Unpause)}
  {
  }
}
