/** The user service's records; times are Unix seconds. */
module UserModels {
  datatype User = User(
    id: string,
    login: string,
    firstname: string,
    surname: string,
    email: string,
    phone: string,
    bio: string,
    passwordHash: string,
    createdAt: int,
    updatedAt: int)

  datatype Session = Session(
    id: string,
    userId: string,
    token: string,
    createdAt: int,
    expiresAt: int,
    ipAddress: string)
}
