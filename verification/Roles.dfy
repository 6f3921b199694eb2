/** The two roles of threads on a shared stack, and the operations each has left. */
module Roles {

  datatype Role = Producer | Consumer

  function Pushes(role: Role, left: int): int { if role == Producer then left else 0 }

  function Pops(role: Role, left: int): int { if role == Consumer then left else 0 }
}
