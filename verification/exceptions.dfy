/** The exception classes of the checks modules (both files declare the same
    hierarchy), and the result of a call that may raise one of them. */
module Exceptions {
  import opened Process

  /** The classes involved, `Exception` being Python's built-in base. */
  datatype ExceptionClass =
    | PyException
    | DockerErrorClass
    | DockerNotRunningErrorClass
    | ContainerNotRunningErrorClass
    | UnexpectedImageErrorClass

  /** Distance from `Exception` in the class hierarchy. */
  function Depth(c: ExceptionClass): nat {
    match c
    case PyException => 0
    case DockerErrorClass => 1
    case _ => 2
  }

  /** The single base class each class is declared with. */
  function Base(c: ExceptionClass): (b: ExceptionClass)
    requires c != PyException
    ensures Depth(b) + 1 == Depth(c)
  {
    match c
    case DockerErrorClass => PyException
    case DockerNotRunningErrorClass => DockerErrorClass
    case ContainerNotRunningErrorClass => DockerErrorClass
    case UnexpectedImageErrorClass => DockerErrorClass
  }

  /** Python's `issubclass(c, d)`: `except d` catches an instance of `c`. */
  predicate IsSubclass(c: ExceptionClass, d: ExceptionClass)
    decreases Depth(c)
  {
    c == d || (c != PyException && IsSubclass(Base(c), d))
  }

  /** An exception the core raises, with the data it carries. */
  datatype DockerFailure =
    | DockerError(message: string)
    | DockerNotRunningError(message: string)
    | ContainerNotRunningError(message: string)
    | UnexpectedImageError(imageName: string)
      /** The `DockerError` raised when a compose command fails; its text
          embeds Python's rendering of the `CalledProcessError`. */
    | ComposeCommandFailed(argv: seq<string>, exitCode: int)
  {
    /** The class of the raised object. Every one of them is caught by
        `except DockerError`. */
    function Class(): (c: ExceptionClass)
      ensures IsSubclass(c, DockerErrorClass)
      ensures c != PyException
    {
      match this
      case DockerError(_) => DockerErrorClass
      case DockerNotRunningError(_) => DockerNotRunningErrorClass
      case ContainerNotRunningError(_) => ContainerNotRunningErrorClass
      case UnexpectedImageError(_) => UnexpectedImageErrorClass
      case ComposeCommandFailed(_, _) => DockerErrorClass
    }
  }

  /** `UnexpectedImageError.__init__` builds its message from the image name. */
  function UnexpectedImageMessage(imageName: string): (m: string)
    ensures |imageName| < |m| && m[|m| - |imageName|..] == imageName
  {
    "Unexpected SQHeaven image detected: " + imageName
  }

  /** A Python call that returns a value or raises. */
  datatype Result<T> = Ok(value: T) | Raised(error: DockerFailure)

  /** The outcome of a call together with the session after it. */
  datatype Step<T> = Step(result: Result<T>, session: Session)

  /** Every class the checks modules declare, other than the base itself,
      derives from `DockerError`, which derives from `Exception`. */
  lemma {:induction false} HierarchyRootedAtDockerError(c: ExceptionClass)
    ensures c != PyException ==> IsSubclass(c, DockerErrorClass)
    ensures IsSubclass(c, PyException)
    ensures IsSubclass(DockerErrorClass, c) <==> (c == DockerErrorClass || c == PyException)
  {
    if c != PyException && c != DockerErrorClass {
      assert Base(c) == DockerErrorClass;
      assert IsSubclass(DockerErrorClass, PyException);
    }
    assert Base(DockerErrorClass) == PyException;
  }
}
