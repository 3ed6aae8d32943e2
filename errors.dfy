/** Error values and failure-carrying result types shared by every module.
    Each constructor of Error stands for one error the service produces;
    the comment names where it comes from. */
module Errors {

  datatype Error =
    | TokenMalformed                  // JWT library: the string does not parse as a signed token
    | UnknownSigningMethod            // key function of VerifyToken: not an HMAC method
    | TokenSignatureInvalid           // JWT library: the signature does not match the key
    | TokenClaimsExpired              // JWT library: the "exp" claim is not in the future
    | TokenExpired                    // VerifyToken's own "token is expired" check
    | RecordNotFound                  // GORM: First found no row
    | DuplicateKey                    // database: primary key or unique column violated
    | StorageFailure                  // database: the statement itself failed
    | RefreshTokenNotFound            // UpdateRefreshToken: zero rows affected
    | UserIdNotFound                  // DeleteRefreshToken: zero rows affected
    | UserNotFound                    // user table Update or Delete: zero rows affected
    | InvalidEmailOrPassword          // Login: password check failed
    | InvalidRefreshToken             // RefreshToken: not in the store or expired there
    | SaveRefreshTokenFailed(cause: Error)    // RefreshToken: wrapped UpdateRefreshToken error
    | DeleteRefreshTokenFailed(cause: Error)  // Logout: wrapped DeleteRefreshToken error

  datatype Option<T> = None | Some(value: T)

  /** A value or the error that replaced it. */
  datatype Result<T> = Ok(value: T) | Err(error: Error)

  /** Success or an error, for operations that only return an error. */
  datatype Outcome = Pass | Fail(error: Error)
}
