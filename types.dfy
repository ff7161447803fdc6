/** The records of types.ts that the core uses. */
module Types {

  /** `AppMode = 'generate' | 'edit'` */
  datatype AppMode = Generate | Edit

  /** `ToastMessage['type'] = 'success' | 'error' | 'info'` */
  datatype ToastType = SuccessToast | ErrorToast | InfoToast

  datatype ToastMessage = ToastMessage(id: string, kind: ToastType, message: string)
}
