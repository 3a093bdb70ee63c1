/** Values standing for the System.Net types the services use: addresses,
    endpoints, and the exceptions that decide control flow. What the operating
    system answers (name resolution, socket calls) is given to the model as
    input. */
module Net {
  import opened Wrappers
  import opened Bytes

  datatype AddressFamily = InterNetwork | InterNetworkV6

  /** An IPAddress: its family and its address bytes. */
  datatype IpAddress = IpAddress(family: AddressFamily, octets: seq<Byte>)

  const MinPort: int := 0
  const MaxPort: int := 65535

  /** An IPEndPoint; only the constructor `IPEndPointOf` below builds one. */
  datatype Endpoint = Endpoint(address: IpAddress, port: int)

  datatype SocketError = HostUnreachable | NetworkUnreachable | OtherSocketError(code: int)

  datatype Exception =
    | SocketException(socketError: SocketError, message: string)
    | ArgumentException(message: string)
    | ArgumentOutOfRangeException(paramName: string)
    | ObjectDisposedException(message: string)
    | OperationCanceledException
    | OtherException(message: string)
  {
    /** Exception.Message as the runtime forms it for the cases the model builds. */
    function Message(): string {
      match this
      case SocketException(_, m) => m
      case ArgumentException(m) => m
      case ArgumentOutOfRangeException(p) =>
        "Specified argument was out of the range of valid values. (Parameter '" + p + "')"
      case ObjectDisposedException(m) => m
      case OperationCanceledException => "The operation was canceled."
      case OtherException(m) => m
    }
  }

  /** `new IPEndPoint(address, port)`, which rejects a port outside 0..65535. */
  function IPEndPointOf(address: IpAddress, port: int): (r: Result<Endpoint, Exception>)
    ensures r.Success? <==> MinPort <= port <= MaxPort
    ensures r.Success? ==> r.value.address == address && r.value.port == port
    ensures r.Failure? ==> r.error == ArgumentOutOfRangeException("port")
  {
    if MinPort <= port <= MaxPort then Success(Endpoint(address, port))
    else Failure(ArgumentOutOfRangeException("port"))
  }
}
