/**
 * A chat participant as the directory stores it: a display name and the
 * descriptor of its connection. The value is immutable; the constructor
 * and the two getters are all it offers.
 */
module Usuarios {

  datatype Usuario = Usuario(nombreUsuario: string, descriptorSocket: int) {

    function ObtenerNombreUsuario(): string {
      nombreUsuario
    }

    function ObtenerDescriptorSocket(): int {
      descriptorSocket
    }
  }

  /** The getters give back exactly what the constructor was given. */
  lemma GettersReturnConstructorArguments(nombre: string, descriptor: int)
    ensures Usuario(nombre, descriptor).ObtenerNombreUsuario() == nombre
    ensures Usuario(nombre, descriptor).ObtenerDescriptorSocket() == descriptor
  {
  }

  /** The names in a directory, in directory order. */
  function Nombres(us: seq<Usuario>): (ns: seq<string>)
    ensures |ns| == |us|
    ensures forall k :: 0 <= k < |us| ==> ns[k] == us[k].nombreUsuario
  {
    if us == [] then [] else Nombres(us[..|us| - 1]) + [us[|us| - 1].nombreUsuario]
  }

  /** How many entries of the directory carry descriptor `fd`. */
  function ConDescriptor(us: seq<Usuario>, fd: int): (n: nat)
    ensures n <= |us|
  {
    if us == [] then 0
    else ConDescriptor(us[..|us| - 1], fd) + (if us[|us| - 1].descriptorSocket == fd then 1 else 0)
  }
}
